/** The SQL classifier of the metrics layer: the statement kind, the table a statement
    works on, and a coarse query context, all computed on the SQL upper-cased and trimmed. */
module SqlQueryTypeDetector {
  import opened Strings

  /** `QUERY_TYPE_MAP`: prefix to statement kind, in the order they are tried. */
  const QueryTypeMap: seq<(string, string)> :=
    [("SELECT", "SELECT"), ("INSERT", "INSERT"), ("UPDATE", "UPDATE"), ("DELETE", "DELETE"),
     ("CREATE", "CREATE"), ("ALTER", "ALTER"), ("DROP", "DROP")]

  /** The statement kinds: the keys, and the values, of the map. */
  const QueryKinds: seq<string> := ["SELECT", "INSERT", "UPDATE", "DELETE", "CREATE", "ALTER", "DROP"]

  const DefaultQueryType: string := "OTHER"
  const UnknownTable: string := "unknown"

  /** `normalizeSql`: `strtoupper` first, then `trim`. */
  function NormalizeSql(sql: string): (r: string)
    ensures NoLowerAscii(r)
    ensures r == [] || (!IsTrimmed(r[0]) && !IsTrimmed(r[|r| - 1]))
  {
    var u := Upper(sql);
    var t := TrimStart(u);
    NoLowerSuffix(u, t);
    var r := TrimEnd(t);
    NoLowerPrefix(t, r);
    TrimEndKeepsStart(t);
    r
  }

  lemma NoLowerSuffix(s: string, t: string)
    requires NoLowerAscii(s) && |t| <= |s| && t == s[|s| - |t|..]
    ensures NoLowerAscii(t)
  {
    forall i | 0 <= i < |t| ensures !IsLowerAscii(t[i]) {
      assert t[i] == s[|s| - |t| + i];
    }
  }

  lemma NoLowerPrefix(s: string, t: string)
    requires NoLowerAscii(s) && |t| <= |s| && t == s[..|t|]
    ensures NoLowerAscii(t)
  {
    forall i | 0 <= i < |t| ensures !IsLowerAscii(t[i]) {
      assert t[i] == s[i];
    }
  }

  lemma UpperOfUpper(s: string)
    requires NoLowerAscii(s)
    ensures Upper(s) == s
  {
  }

  /** Normalizing twice is normalizing once. */
  lemma NormalizeIdempotent(sql: string)
    ensures NormalizeSql(NormalizeSql(sql)) == NormalizeSql(sql)
  {
    var n := NormalizeSql(sql);
    UpperOfUpper(n);
    TrimFixpoint(n);
  }

  /** The normal form ignores the case of ASCII letters. */
  lemma NormalizeIgnoresCase(sql: string)
    ensures NormalizeSql(Upper(sql)) == NormalizeSql(sql)
    ensures NormalizeSql(Lower(sql)) == NormalizeSql(sql)
  {
    assert Upper(Upper(sql)) == Upper(sql);
    assert forall i :: 0 <= i < |sql| ==> UpperChar(LowerChar(sql[i])) == UpperChar(sql[i]);
    assert Upper(Lower(sql)) == Upper(sql);
  }

  // ---- detect -------------------------------------------------------------------

  /** The position of the first entry of the map whose prefix the SQL starts with, or the
      map's length when there is none. */
  function FirstMatch(n: string, m: seq<(string, string)>): (k: nat)
    ensures k <= |m|
    ensures k < |m| ==> StartsWith(n, m[k].0)
    ensures forall j :: 0 <= j < k ==> !StartsWith(n, m[j].0)
    decreases |m|
  {
    if m == [] then 0
    else if StartsWith(n, m[0].0) then 0
    else
      var k := FirstMatch(n, m[1..]);
      assert forall j :: 1 <= j < |m| ==> m[j] == m[1..][j - 1];
      k + 1
  }

  /** The kind found by a prefix match is that prefix, and never the default. */
  lemma MatchedKind(n: string)
    ensures var k := FirstMatch(n, QueryTypeMap);
      k < |QueryTypeMap| ==> QueryTypeMap[k].1 != DefaultQueryType && StartsWith(n, QueryTypeMap[k].1)
                             && QueryTypeMap[k].1 in QueryKinds
  {
  }

  /** Every kind is a key of the map. */
  lemma KindIsKey(kind: string) returns (k: nat)
    requires kind in QueryKinds
    ensures k < |QueryTypeMap| && QueryTypeMap[k].0 == kind
  {
    k :| k < |QueryKinds| && QueryKinds[k] == kind;
  }

  /** No two kinds agree on their first two letters. */
  lemma TwoLetters(a: string, b: string)
    requires a in QueryKinds && b in QueryKinds && a[0] == b[0] && a[1] == b[1]
    ensures a == b
  {
  }

  /** No string starts with two different kinds. */
  lemma PrefixesExclusive(n: string, a: string, b: string)
    requires a in QueryKinds && b in QueryKinds && StartsWith(n, a) && StartsWith(n, b)
    ensures a == b
  {
    assert a[0] == n[0] == b[0] && a[1] == n[1] == b[1];
    TwoLetters(a, b);
  }

  /** `detect`: the kind of the first prefix the normalized SQL starts with, else 'OTHER'.
      Matching is a plain prefix test, with no word boundary. */
  function Detect(sql: string): (r: string)
    ensures r == DefaultQueryType || r in QueryKinds
  {
    KindOf(NormalizeSql(sql))
  }

  /** The kind of a normalized statement. */
  function KindOf(n: string): (r: string)
    ensures r == DefaultQueryType
        <==> forall k :: 0 <= k < |QueryTypeMap| ==> !StartsWith(n, QueryTypeMap[k].0)
    ensures r != DefaultQueryType ==> StartsWith(n, r) && r in QueryKinds
  {
    MatchedKind(n);
    var k := FirstMatch(n, QueryTypeMap);
    if k < |QueryTypeMap| then QueryTypeMap[k].1 else DefaultQueryType
  }

  /** No two prefixes of the map can both start one string, so the order in which they are
      tried never matters: a statement is of a kind exactly when it starts with that prefix. */
  lemma KindOfIff(n: string, kind: string)
    requires kind in QueryKinds
    ensures KindOf(n) == kind <==> StartsWith(n, kind)
  {
    if StartsWith(n, kind) {
      var k := KindIsKey(kind);
      var r := KindOf(n);
      assert r != DefaultQueryType;
      PrefixesExclusive(n, kind, r);
    }
  }

  /** The SQL is of a kind exactly when its normal form starts with that kind. */
  lemma DetectIff(sql: string, kind: string)
    requires kind in QueryKinds
    ensures Detect(sql) == kind <==> StartsWith(NormalizeSql(sql), kind)
  {
    KindOfIff(NormalizeSql(sql), kind);
  }

  /** 'OTHER' exactly when no prefix of the map starts the normal form. */
  lemma DetectOtherIff(sql: string)
    ensures Detect(sql) == DefaultQueryType
        <==> forall k :: 0 <= k < |QueryTypeMap| ==> !StartsWith(NormalizeSql(sql), QueryTypeMap[k].0)
  {
    var r := KindOf(NormalizeSql(sql));
  }

  /** Classification is unchanged by normalizing first, and ignores letter case. */
  lemma DetectInvariant(sql: string)
    ensures Detect(NormalizeSql(sql)) == Detect(sql)
    ensures Detect(Lower(sql)) == Detect(sql)
  {
    NormalizeIdempotent(sql);
    NormalizeIgnoresCase(sql);
  }

  /** SQL that neither starts nor ends with a blank normalizes to its upper-case form. */
  lemma NormalizeUntrimmed(sql: string)
    requires sql == [] || (!IsTrimmed(sql[0]) && !IsTrimmed(sql[|sql| - 1]))
    ensures NormalizeSql(sql) == Upper(sql)
  {
    if sql != [] {
      UpperKeepsTrimmed(sql[0]);
      UpperKeepsTrimmed(sql[|sql| - 1]);
    }
    TrimFixpoint(Upper(sql));
  }

  /** A leading blank is dropped by normalization. */
  lemma NormalizeSkipsBlank(sql: string)
    ensures NormalizeSql(" " + sql) == NormalizeSql(sql)
  {
    assert Upper(" " + sql) == " " + Upper(sql);
    assert (" " + Upper(sql))[1..] == Upper(sql);
  }

  lemma SelectedUpper()
    ensures StartsWith(Upper("selected_rows"), "SELECT")
  {
    assert Upper("selected_rows")[..6] == "SELECT";
  }

  lemma SelectedNormal()
    ensures StartsWith(NormalizeSql("selected_rows"), "SELECT")
  {
    SelectedUpper();
    NormalizeUntrimmed("selected_rows");
  }

  /** Matching is a plain prefix test, with no word boundary: 'selected_rows' is a SELECT. */
  lemma DetectSelected()
    ensures Detect("selected_rows") == "SELECT"
  {
    SelectedNormal();
    DetectIff("selected_rows", "SELECT");
  }

  lemma InsertUpper()
    ensures StartsWith(Upper("insert into t"), "INSERT")
  {
    assert Upper("insert into t")[..6] == "INSERT";
  }

  lemma SkipsTwoBlanks(sql: string)
    ensures NormalizeSql("  " + sql) == NormalizeSql(sql)
  {
    var once := " " + sql;
    NormalizeSkipsBlank(once);
    NormalizeSkipsBlank(sql);
    AppendAssoc(" ", " ", sql);
    assert " " + " " == "  ";
  }

  lemma InsertTrimmed()
    ensures StartsWith(NormalizeSql("insert into t"), "INSERT")
  {
    InsertUpper();
    NormalizeUntrimmed("insert into t");
  }

  /** Leading blanks and letter case do not matter. */
  lemma DetectLeadingBlanks()
    ensures Detect("  " + "insert into t") == "INSERT"
  {
    InsertTrimmed();
    SkipsTwoBlanks("insert into t");
    DetectIff("  " + "insert into t", "INSERT");
  }

  lemma WithUpper()
    ensures Upper("WITH x AS (SELECT 1)")[0] == 'W'
  {
  }

  lemma WithNormal()
    ensures NormalizeSql("WITH x AS (SELECT 1)")[0] == 'W'
  {
    WithUpper();
    NormalizeUntrimmed("WITH x AS (SELECT 1)");
  }

  /** No prefix of the map starts with W. */
  lemma NoKindStartsWithW(n: string)
    requires n != [] && n[0] == 'W'
    ensures KindOf(n) == DefaultQueryType
  {
    KeyInitials();
    forall k | 0 <= k < |QueryTypeMap| ensures !StartsWith(n, QueryTypeMap[k].0) {
      FirstLetterDiffers(n, QueryTypeMap[k].0);
    }
  }

  /** The first letters of the map's prefixes. */
  lemma KeyInitials()
    ensures forall k :: 0 <= k < |QueryTypeMap| ==> QueryTypeMap[k].0 != [] && QueryTypeMap[k].0[0] in "SIUDCA"
  {
  }

  lemma FirstLetterDiffers(n: string, p: string)
    requires n != [] && p != [] && n[0] != p[0]
    ensures !StartsWith(n, p)
  {
  }

  /** A statement starting with none of the prefixes is OTHER. */
  lemma DetectOther()
    ensures Detect("WITH x AS (SELECT 1)") == DefaultQueryType
  {
    WithNormal();
    NoKindStartsWithW(NormalizeSql("WITH x AS (SELECT 1)"));
  }

  // ---- extractTableName ---------------------------------------------------------

  /** PCRE's `\s`: space, tab, line feed, vertical tab, form feed, carriage return. */
  predicate IsRegexSpace(c: char) {
    c == ' ' || '\t' <= c <= '\r'
  }

  /** PCRE's `\w`: ASCII letters, digits and underscore. */
  predicate IsWordChar(c: char) {
    IsUpperAscii(c) || IsLowerAscii(c) || IsDigit(c) || c == '_'
  }

  predicate IsWord(w: string) {
    w != [] && forall i :: 0 <= i < |w| ==> IsWordChar(w[i])
  }

  /** The number of `\s` characters starting at q. */
  function SpaceRun(s: string, q: nat): (n: nat)
    requires q <= |s|
    ensures q + n <= |s|
    ensures forall i :: q <= i < q + n ==> IsRegexSpace(s[i])
    ensures q + n == |s| || !IsRegexSpace(s[q + n])
    decreases |s| - q
  {
    if q < |s| && IsRegexSpace(s[q]) then 1 + SpaceRun(s, q + 1) else 0
  }

  /** The `\w` characters starting at q. */
  function WordRun(s: string, q: nat): (w: string)
    requires q <= |s|
    ensures q + |w| <= |s| && w == s[q..q + |w|]
    ensures forall i :: 0 <= i < |w| ==> IsWordChar(w[i])
    ensures q + |w| == |s| || !IsWordChar(s[q + |w|])
    decreases |s| - q
  {
    if q < |s| && IsWordChar(s[q]) then [s[q]] + WordRun(s, q + 1) else []
  }

  /** A match of `K1\s+K2\s+...\s+(\w+)` starting exactly at p, giving the captured word.
      The keywords start with a letter, so the greedy `\s+` never needs to give back. */
  function MatchFrom(s: string, p: nat, keywords: seq<string>): (r: Option<string>)
    requires p <= |s| && |keywords| >= 1
    ensures r.Some? ==> IsWord(r.value)
    ensures r.Some? && NoLowerAscii(s) ==> NoLowerAscii(r.value)
    decreases |keywords|
  {
    if !StartsWith(s[p..], keywords[0]) then None
    else
      var q := p + |keywords[0]|;
      var n := SpaceRun(s, q);
      if n == 0 then None
      else if |keywords| == 1 then
        var w := WordRun(s, q + n);
        assert forall i :: 0 <= i < |w| ==> w[i] == s[q + n + i];
        if w == [] then None else Some(w)
      else MatchFrom(s, q + n, keywords[1..])
  }

  /** Where `preg_match` finds its match: the leftmost position, at or after p, at which the
      pattern matches, or |s| + 1 when there is none. */
  function Search(s: string, p: nat, keywords: seq<string>): (q: nat)
    requires p <= |s| && |keywords| >= 1
    ensures p <= q <= |s| + 1
    ensures q <= |s| ==> MatchFrom(s, q, keywords).Some?
    ensures forall q': nat :: p <= q' < q && q' <= |s| ==> MatchFrom(s, q', keywords).None?
    decreases |s| - p
  {
    if MatchFrom(s, p, keywords).Some? then p
    else if p == |s| then |s| + 1
    else Search(s, p + 1, keywords)
  }

  /** The pattern `extractTableName` applies, chosen by the statement's first word. */
  function TablePattern(n: string): (r: Option<seq<string>>)
    ensures r.Some? ==> |r.value| >= 1
  {
    if StartsWith(n, "SELECT") then Some(["FROM"])
    else if StartsWith(n, "INSERT") then Some(["INSERT", "INTO"])
    else if StartsWith(n, "UPDATE") then Some(["UPDATE"])
    else if StartsWith(n, "DELETE") then Some(["DELETE", "FROM"])
    else None
  }

  /** What `preg_match` captures on the normalized SQL, if anything. */
  function TableMatch(sql: string): Option<string> {
    var n := NormalizeSql(sql);
    match TablePattern(n)
    case None => None
    case Some(keywords) =>
      var q := Search(n, 0, keywords);
      if q <= |n| then MatchFrom(n, q, keywords) else None
  }

  /** `extractTableName`: the captured word, else 'unknown'. A captured name comes from the
      upper-cased SQL, so it is an upper-case word and can never be mistaken for 'unknown'. */
  function ExtractTableName(sql: string): (r: string)
    ensures r != UnknownTable ==> IsWord(r) && NoLowerAscii(r)
  {
    var found := TableMatch(sql);
    if found.Some? then
      assert NoLowerAscii(found.value);
      assert !IsLowerAscii(found.value[0]) && IsLowerAscii(UnknownTable[0]);
      found.value
    else UnknownTable
  }

  /** The name is 'unknown' exactly when the statement has no table pattern or its pattern
      matches nowhere in the normalized SQL; otherwise it is the word captured by the
      leftmost match. */
  lemma ExtractTableLeftmost(sql: string)
    ensures var n := NormalizeSql(sql); var r := ExtractTableName(sql);
      && (TablePattern(n).None? ==> r == UnknownTable)
      && (TablePattern(n).Some? ==>
            var keywords := TablePattern(n).value;
            && (r == UnknownTable <==> forall q: nat :: q <= |n| ==> MatchFrom(n, q, keywords).None?)
            && (r != UnknownTable ==>
                  exists q: nat :: q <= |n| && MatchFrom(n, q, keywords) == Some(r)
                                   && forall q': nat :: q' < q ==> MatchFrom(n, q', keywords).None?))
  {
    var n := NormalizeSql(sql);
    var r := ExtractTableName(sql);
    var found := TableMatch(sql);
    assert r == if found.Some? then found.value else UnknownTable;
    if TablePattern(n).Some? {
      var keywords := TablePattern(n).value;
      var q := Search(n, 0, keywords);
      assert found == if q <= |n| then MatchFrom(n, q, keywords) else None;
      CapturedName(n, keywords);
    }
  }

  /** What the leftmost search in an upper-case string yields. */
  lemma CapturedName(n: string, keywords: seq<string>)
    requires NoLowerAscii(n) && |keywords| >= 1
    ensures var q := Search(n, 0, keywords);
      && (q > |n| <==> forall q': nat :: q' <= |n| ==> MatchFrom(n, q', keywords).None?)
      && (q <= |n| ==> MatchFrom(n, q, keywords).value != UnknownTable
                       && forall q': nat :: q' < q ==> MatchFrom(n, q', keywords).None?)
  {
    SearchFails(n, keywords);
    SearchFailsOnlyIf(n, keywords);
    CapturedIsNotUnknown(n, keywords);
  }

  lemma CapturedIsNotUnknown(n: string, keywords: seq<string>)
    requires NoLowerAscii(n) && |keywords| >= 1
    ensures var q := Search(n, 0, keywords);
      q <= |n| ==> MatchFrom(n, q, keywords).value != UnknownTable
  {
    var q := Search(n, 0, keywords);
    if q <= |n| {
      NotUnknown(MatchFrom(n, q, keywords).value);
    }
  }

  lemma SearchFails(n: string, keywords: seq<string>)
    requires |keywords| >= 1
    ensures Search(n, 0, keywords) > |n| ==> forall q: nat :: q <= |n| ==> MatchFrom(n, q, keywords).None?
  {
  }

  lemma SearchFailsOnlyIf(n: string, keywords: seq<string>)
    requires |keywords| >= 1
    ensures (forall q: nat :: q <= |n| ==> MatchFrom(n, q, keywords).None?) ==> Search(n, 0, keywords) > |n|
  {
  }

  lemma NotUnknown(w: string)
    requires w != [] && NoLowerAscii(w)
    ensures w != UnknownTable
  {
    assert !IsLowerAscii(w[0]);
  }

  /** Only the four data statements can name a table. */
  lemma OtherStatementsHaveNoTable(sql: string)
    requires Detect(sql) != "SELECT" && Detect(sql) != "INSERT"
    requires Detect(sql) != "UPDATE" && Detect(sql) != "DELETE"
    ensures ExtractTableName(sql) == UnknownTable
  {
    DetectIff(sql, "SELECT");
    DetectIff(sql, "INSERT");
    DetectIff(sql, "UPDATE");
    DetectIff(sql, "DELETE");
  }

  /** An UPDATE followed by one blank and a word names that word, upper-cased, whatever the
      case it was written in. */
  lemma UpdateNamesTable(w: string)
    requires IsWord(w)
    ensures ExtractTableName("update " + w) == Upper(w)
  {
    var sql := "update " + w;
    var n := "UPDATE " + Upper(w);
    UpdateNormalPattern(w);
    UpdateCapture(w);
    TableMatchAt(sql, n, ["UPDATE"], 0);
  }

  lemma UpdateNormalPattern(w: string)
    requires IsWord(w)
    ensures var n := "UPDATE " + Upper(w);
      NormalizeSql("update " + w) == n && TablePattern(n) == Some(["UPDATE"])
  {
    var n := "UPDATE " + Upper(w);
    UpdateNormalForm(w);
    assert n[..6] == "UPDATE";
    UpdatePattern(n);
  }

  lemma UpdateCapture(w: string)
    requires IsWord(w)
    ensures MatchFrom("UPDATE " + Upper(w), 0, ["UPDATE"]) == Some(Upper(w))
  {
    UpperOfWord(w);
    UpdateMatchesWord("UPDATE " + Upper(w), Upper(w));
  }

  lemma UpdateNormalForm(w: string)
    requires IsWord(w)
    ensures NormalizeSql("update " + w) == "UPDATE " + Upper(w)
  {
    var sql := "update " + w;
    var n := "UPDATE " + Upper(w);
    UpperOfWord(w);
    UpperConcat("update ", w);
    assert Upper("update ") == "UPDATE ";
    assert sql[0] == 'u' && sql[|sql| - 1] == w[|w| - 1];
    NormalizeUntrimmed(sql);
  }

  /** A statement starting with UPDATE is matched against the UPDATE pattern. */
  lemma UpdatePattern(n: string)
    requires |n| >= 6 && n[..6] == "UPDATE"
    ensures TablePattern(n) == Some(["UPDATE"])
  {
    assert n[0] == 'U';
  }

  /** The capture, once the normal form, its pattern and the leftmost match are known. */
  lemma TableMatchAt(sql: string, n: string, keywords: seq<string>, q: nat)
    requires NormalizeSql(sql) == n && TablePattern(n) == Some(keywords)
    requires q <= |n| && MatchFrom(n, q, keywords).Some?
    requires forall q': nat :: q' < q ==> MatchFrom(n, q', keywords).None?
    ensures TableMatch(sql) == MatchFrom(n, q, keywords)
  {
    SearchAt(n, 0, keywords, q);
  }

  lemma {:induction false} SearchAt(n: string, p: nat, keywords: seq<string>, q: nat)
    requires p <= q <= |n| && |keywords| >= 1 && MatchFrom(n, q, keywords).Some?
    requires forall q': nat :: p <= q' < q ==> MatchFrom(n, q', keywords).None?
    ensures Search(n, p, keywords) == q
    decreases q - p
  {
    if p < q {
      SearchAt(n, p + 1, keywords, q);
    }
  }

  /** Upper-casing a word gives an upper-case word of the same length. */
  lemma UpperOfWord(w: string)
    requires IsWord(w)
    ensures IsWord(Upper(w)) && NoLowerAscii(Upper(w))
  {
  }

  lemma UpperConcat(a: string, b: string)
    ensures Upper(a + b) == Upper(a) + Upper(b)
  {
    var l, r := Upper(a + b), Upper(a) + Upper(b);
    forall i | 0 <= i < |l| ensures l[i] == r[i] {
      if i < |a| {
        assert (a + b)[i] == a[i];
      } else {
        assert (a + b)[i] == b[i - |a|];
      }
    }
  }

  /** The UPDATE pattern matches at the start of 'UPDATE ' and a word, and captures the word. */
  lemma UpdateMatchesWord(n: string, u: string)
    requires IsWord(u) && n == "UPDATE " + u
    ensures MatchFrom(n, 0, ["UPDATE"]) == Some(u)
  {
    assert n[0..] == n && n[..6] == "UPDATE";
    assert IsRegexSpace(n[6]) && !IsRegexSpace(n[7]);
    assert SpaceRun(n, 7) == 0;
    assert SpaceRun(n, 6) == 1;
    var r := WordRun(n, 7);
    assert forall i :: 7 <= i < |n| ==> n[i] == u[i - 7];
    assert n[7..] == u;
    assert r == u;
    var k: seq<string> := ["UPDATE"];
    assert |k| == 1 && k[0] == "UPDATE" && |k[0]| == 6;
    assert StartsWith(n[0..], k[0]);
  }

  // ---- getQueryContext ----------------------------------------------------------

  /** `getQueryContext`: the context of the normalized SQL. */
  function GetQueryContext(sql: string): (r: string)
    ensures r in Contexts
  {
    ContextOf(NormalizeSql(sql))
  }

  const Contexts: seq<string> :=
    ["historical_query", "date_range_query", "rate_insert", "crypto_rate_operation",
     "migration", "schema_check", "general"]

  /** The first pattern that applies, in this order: a crypto-rate query with
      `TIMESTAMP >= ?`, one with `TIMESTAMP BETWEEN`, one with `INSERT INTO`, any other
      crypto-rate query, a migration-table query, a schema query, anything else. */
  function ContextOf(n: string): (r: string)
    ensures r in Contexts
  {
    if Contains(n, "CRYPTO_RATE") then
      if Contains(n, "TIMESTAMP >= ?") then "historical_query"
      else if Contains(n, "TIMESTAMP BETWEEN") then "date_range_query"
      else if Contains(n, "INSERT INTO") then "rate_insert"
      else "crypto_rate_operation"
    else if Contains(n, "DOCTRINE_MIGRATION") then "migration"
    else if Contains(n, "INFORMATION_SCHEMA") then "schema_check"
    else "general"
  }

  /** A crypto-rate query with both timestamp patterns is a historical query: the
      `TIMESTAMP >= ?` test comes first. */
  lemma HistoricalFirst(n: string)
    ensures ContextOf(n) == "historical_query"
        <==> Contains(n, "CRYPTO_RATE") && Contains(n, "TIMESTAMP >= ?")
  {
  }

  /** A crypto-rate insert is reported as such only when neither timestamp pattern occurs. */
  lemma RateInsertLast(n: string)
    ensures ContextOf(n) == "rate_insert"
        <==> Contains(n, "CRYPTO_RATE") && !Contains(n, "TIMESTAMP >= ?")
             && !Contains(n, "TIMESTAMP BETWEEN") && Contains(n, "INSERT INTO")
  {
  }

  /** The crypto-rate table decides first: a query that mentions it gets one of the four
      crypto-rate contexts, even if it also mentions the migration or schema tables. */
  lemma CryptoRateDecidesFirst(n: string)
    ensures Contains(n, "CRYPTO_RATE") <==> ContextOf(n) in Contexts[..4]
  {
    assert Contexts[..4] == ["historical_query", "date_range_query", "rate_insert", "crypto_rate_operation"];
  }

  /** A query mentioning none of the three tables is 'general'. */
  lemma GeneralOtherwise(n: string)
    ensures ContextOf(n) == "general"
        <==> !Contains(n, "CRYPTO_RATE") && !Contains(n, "DOCTRINE_MIGRATION") && !Contains(n, "INFORMATION_SCHEMA")
  {
  }

  /** Everything the detector reports depends on the normal form of the SQL alone. */
  lemma SameNormalForm(a: string, b: string)
    requires NormalizeSql(a) == NormalizeSql(b)
    ensures Detect(a) == Detect(b)
    ensures ExtractTableName(a) == ExtractTableName(b)
    ensures GetQueryContext(a) == GetQueryContext(b)
  {
    SameTable(a, b);
    SameContext(a, b);
  }

  lemma SameTable(a: string, b: string)
    requires NormalizeSql(a) == NormalizeSql(b)
    ensures ExtractTableName(a) == ExtractTableName(b)
  {
    assert TableMatch(a) == TableMatch(b);
  }

  lemma SameContext(a: string, b: string)
    requires NormalizeSql(a) == NormalizeSql(b)
    ensures GetQueryContext(a) == GetQueryContext(b)
  {
    assert ContextOf(NormalizeSql(a)) == ContextOf(NormalizeSql(b));
  }

  /** The context ignores letter case and surrounding blanks. */
  lemma ContextInvariant(sql: string)
    ensures GetQueryContext(NormalizeSql(sql)) == GetQueryContext(sql)
    ensures GetQueryContext(Lower(sql)) == GetQueryContext(sql)
  {
    NormalizeIdempotent(sql);
    SameNormalForm(NormalizeSql(sql), sql);
    NormalizeIgnoresCase(sql);
    SameNormalForm(Lower(sql), sql);
  }

  /** The table name ignores letter case and surrounding blanks too. */
  lemma TableNameInvariant(sql: string)
    ensures ExtractTableName(NormalizeSql(sql)) == ExtractTableName(sql)
    ensures ExtractTableName(Lower(sql)) == ExtractTableName(sql)
  {
    NormalizeIdempotent(sql);
    SameNormalForm(NormalizeSql(sql), sql);
    NormalizeIgnoresCase(sql);
    SameNormalForm(Lower(sql), sql);
  }
}
