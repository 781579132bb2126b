/** Finding the price of a model: the lookup scans Go maps, whose order is
    random, and must answer the same way every time. */
module Pricing {
  import opened Rows

  // ---------- Names ----------

  function LowerChar(c: char): char {
    if 'A' <= c <= 'Z' then c + 32 as char else c
  }

  function Lower(s: string): (r: string)
    ensures |r| == |s| && forall i :: 0 <= i < |s| ==> r[i] == LowerChar(s[i])
  {
    seq(|s|, i requires 0 <= i < |s| => LowerChar(s[i]))
  }

  function Trim(s: string): (r: string)
    ensures r == "" || (!IsSpace(r[0]) && !IsSpace(r[|r| - 1]))
    ensures Blank(s) <==> r == ""
    decreases |s|
  {
    if s == "" then ""
    else if IsSpace(s[0]) then Trim(s[1..])
    else if IsSpace(s[|s| - 1]) then Trim(s[..|s| - 1])
    else s
  }

  function NormalizeModel(model: string): string {
    Lower(Trim(model))
  }

  lemma LowerKeepsSpace(c: char)
    ensures IsSpace(LowerChar(c)) <==> IsSpace(c)
    ensures LowerChar(LowerChar(c)) == LowerChar(c)
  {
  }

  lemma LowerIsIdempotent(s: string)
    ensures Lower(Lower(s)) == Lower(s)
  {
    hide LowerChar;
    forall i | 0 <= i < |s| ensures Lower(Lower(s))[i] == Lower(s)[i] {
      LowerKeepsSpace(s[i]);
    }
  }

  lemma TrimmedStays(s: string)
    requires s == "" || (!IsSpace(s[0]) && !IsSpace(s[|s| - 1]))
    ensures Trim(s) == s
  {
    hide IsSpace;
  }

  lemma NormalizeModelIsIdempotent(model: string)
    ensures NormalizeModel(NormalizeModel(model)) == NormalizeModel(model)
  {
    hide IsSpace, LowerChar, Trim;
    var t := Trim(model);
    var q := Lower(t);
    if t != "" {
      LowerKeepsSpace(t[0]);
      LowerKeepsSpace(t[|t| - 1]);
    }
    TrimmedStays(q);
    LowerIsIdempotent(t);
  }

  predicate HasPrefix(s: string, p: string) {
    p <= s
  }

  predicate IsClaudeModel(model: string) {
    HasPrefix(NormalizeModel(model), "claude-")
  }

  /** Is the reported cost trusted, rather than recomputed? */
  predicate Authoritative(service: string, model: string) {
    Lower(Trim(service)) == DEFAULT_SERVICE && IsClaudeModel(model)
  }

  predicate NamesCodexAt(name: string, i: int) {
    0 <= i <= |name| - 5 && Lower(name)[i..i + 5] == CODEX_SERVICE
  }

  /** isCodexService: the name contains "codex" in any case. */
  predicate IsCodexService(name: string) {
    exists i :: 0 <= i <= |name| - 5 && NamesCodexAt(name, i)
  }

  lemma {:induction false} TrimKeepsInner(s: string, k: int)
    requires 0 <= k < |s| && !IsSpace(s[k])
    ensures s[k] in Trim(s)
    decreases |s|
  {
    if IsSpace(s[0]) {
      assert s[1..][k - 1] == s[k];
      TrimKeepsInner(s[1..], k - 1);
    } else if IsSpace(s[|s| - 1]) {
      assert s[..|s| - 1][k] == s[k];
      TrimKeepsInner(s[..|s| - 1], k);
    }
  }

  /** No record that is routed to the Codex path, and no row stored by it, keeps
      the cost its client reported. */
  lemma CodexIsNeverAuthoritative(service: string, model: string)
    requires IsCodexService(service)
    ensures !Authoritative(service, model)
  {
    hide Trim;
    var i :| 0 <= i <= |service| - 5 && NamesCodexAt(service, i);
    assert Lower(service)[i..i + 5][4] == 'x';
    TrimKeepsInner(service, i + 4);
    var k :| 0 <= k < |Trim(service)| && Trim(service)[k] == service[i + 4];
    assert Lower(Trim(service))[k] == 'x';
    assert forall j :: 0 <= j < |DEFAULT_SERVICE| ==> DEFAULT_SERVICE[j] != 'x';
  }

  lemma CodexIsCodexService()
    ensures IsCodexService(CODEX_SERVICE)
  {
    assert NamesCodexAt(CODEX_SERVICE, 0);
  }

  // ---------- Variants ----------

  predicate IsDigit(c: char) {
    '0' <= c <= '9'
  }

  /** Ends in a dash and eight digits. */
  predicate HasDate(s: string) {
    |s| >= 9 && s[|s| - 9] == '-' && forall i :: |s| - 8 <= i < |s| ==> IsDigit(s[i])
  }

  function WithoutDate(s: string): (r: string)
    ensures r == s || (|s| == |r| + 9 && r < s && s[|r|] == '-')
  {
    if HasDate(s) then s[..|s| - 9] else s
  }

  const TAGS := ["-preview", "-latest", "-exp", "-beta", "-alpha"]

  predicate EndsWith(s: string, e: string) {
    |e| <= |s| && s[|s| - |e|..] == e
  }

  function WithoutTag(s: string): (r: string)
    ensures r == s || exists k :: 0 <= k < |TAGS| && s == r + TAGS[k]
  {
    if EndsWith(s, TAGS[0]) then s[..|s| - 8]
    else if EndsWith(s, TAGS[1]) then s[..|s| - 7]
    else if EndsWith(s, TAGS[2]) then s[..|s| - 4]
    else if EndsWith(s, TAGS[3]) then s[..|s| - 5]
    else if EndsWith(s, TAGS[4]) then s[..|s| - 6]
    else s
  }

  function StripVariants(model: string): (r: seq<string>)
    ensures |r| >= 1 && r[0] == model
    ensures forall i :: 0 < i < |r| ==> r[i] < model
  {
    var dated := WithoutDate(model);
    var tagged := WithoutTag(model);
    var both := WithoutDate(tagged);
    [model] + (if dated != model then [dated] else []) + (if tagged != model then [tagged] else [])
    + (if tagged != model && both != tagged then [both] else [])
  }

  function FirstIn(variants: seq<string>, names: set<string>): (r: Option<string>)
    ensures r.Some? ==> r.value in variants && r.value in names
    ensures r.None? ==> forall v :: v in variants ==> v !in names
  {
    if variants == [] then None
    else if variants[0] in names then Some(variants[0])
    else FirstIn(variants[1..], names)
  }

  // ---------- Longest prefix ----------

  /** k stops at a boundary inside q. */
  predicate Prefixes(k: string, q: string) {
    k != "" && |k| < |q| && k <= q && (q[|k|] == '-' || q[|k|] == '.' || q[|k|] == ':')
  }

  /** The longest key that prefixes q, found by shortening q. */
  function LongestPrefix(q: string, keys: set<string>, n: nat): string
    requires n <= |q|
    decreases n
  {
    if n == 0 then "" else if q[..n] in keys && Prefixes(q[..n], q) then q[..n] else LongestPrefix(q, keys, n - 1)
  }

  lemma {:induction false} LongestPrefixIsLongest(q: string, keys: set<string>, n: nat)
    requires n <= |q|
    ensures var best := LongestPrefix(q, keys, n);
      && (best != "" ==> best in keys && Prefixes(best, q))
      && |best| <= n
      && forall k :: k in keys && Prefixes(k, q) && |k| <= n ==> |k| <= |best| && (|k| == |best| ==> k == best)
    decreases n
  {
    if n > 0 {
      LongestPrefixIsLongest(q, keys, n - 1);
      forall k | k in keys && Prefixes(k, q) && |k| == n ensures k == q[..n] {
      }
    }
  }

  /** The scan of the key set, in whatever order the map yields it. */
  method ScanPrefixes(q: string, keys: set<string>) returns (best: string)
    ensures best == LongestPrefix(q, keys, |q|)
  {
    best := "";
    var todo := keys;
    while todo != {}
      invariant todo <= keys
      invariant best != "" ==> best in keys && Prefixes(best, q)
      invariant forall k :: k in keys && k !in todo && Prefixes(k, q) ==> |k| <= |best|
      decreases |todo|
    {
      var k :| k in todo;
      todo := todo - {k};
      if k == "" || |k| >= |q| {
        continue;
      }
      if !(k <= q) {
        continue;
      }
      var next := q[|k|];
      if next != '-' && next != '.' && next != ':' {
        continue;
      }
      if |k| > |best| {
        best := k;
      }
    }
    LongestPrefixIsLongest(q, keys, |q|);
  }

  // ---------- Matching ----------

  datatype Match = Miss | Exact(key: string) | Alias(key: string) | Prefix(key: string) | Basename(key: string)

  /** Exact or stripped name, then alias, then longest prefix. */
  function MatchKey(q: string, keys: set<string>, aliases: map<string, string>): Match {
    var exact := FirstIn(StripVariants(q), keys);
    var alias := FirstIn(StripVariants(q), aliases.Keys);
    var prefix := LongestPrefix(q, keys, |q|);
    if q == "" then Miss
    else if exact.Some? then Exact(exact.value)
    else if alias.Some? then Alias(aliases[alias.value])
    else if prefix != "" then Prefix(prefix)
    else Miss
  }

  method FindKey(query: string, keys: set<string>, aliases: map<string, string>) returns (r: Match)
    ensures r == MatchKey(NormalizeModel(query), keys, aliases)
  {
    hide NormalizeModel, StripVariants, LongestPrefix, Prefixes;
    var q := NormalizeModel(query);
    if q == "" {
      return Miss;
    }
    var variants := StripVariants(q);
    for i := 0 to |variants|
      invariant FirstIn(variants, keys) == FirstIn(variants[i..], keys)
    {
      if variants[i] in keys {
        return Exact(variants[i]);
      }
      assert variants[i..][1..] == variants[i + 1..];
    }
    if q in aliases {
      return Alias(aliases[q]);
    }
    for i := 0 to |variants|
      invariant FirstIn(variants, aliases.Keys) == FirstIn(variants[i..], aliases.Keys)
    {
      if variants[i] in aliases {
        return Alias(aliases[variants[i]]);
      }
      assert variants[i..][1..] == variants[i + 1..];
    }
    var best := ScanPrefixes(q, keys);
    if best != "" {
      return Prefix(best);
    }
    return Miss;
  }

  // ---------- Basenames ----------

  predicate LexLess(a: string, b: string)
    decreases |a|
  {
    b != "" && (a == "" || a[0] < b[0] || (a[0] == b[0] && LexLess(a[1..], b[1..])))
  }

  lemma {:induction false} LexIsTotal(a: string, b: string)
    ensures a == b || LexLess(a, b) || LexLess(b, a)
    ensures !(LexLess(a, b) && LexLess(b, a)) && !LexLess(a, a)
    decreases |a|
  {
    if a != "" && b != "" {
      LexIsTotal(a[1..], b[1..]);
      LexIsTotal(a[1..], a[1..]);
      if a[0] == b[0] && a[1..] == b[1..] {
        assert a == [a[0]] + a[1..] && b == [b[0]] + b[1..];
      }
    } else if a != "" {
      LexIsTotal(a[1..], a[1..]);
    }
  }

  lemma {:induction false} LexIsTransitive(a: string, b: string, c: string)
    requires LexLess(a, b) && LexLess(b, c)
    ensures LexLess(a, c)
    decreases |a|
  {
    if a != "" && a[0] == b[0] == c[0] {
      LexIsTransitive(a[1..], b[1..], c[1..]);
    }
  }

  function Slashes(s: string): nat {
    if s == "" then 0 else Slashes(s[1..]) + if s[0] == '/' then 1 else 0
  }

  /** basenameCandidateLess: fewer segments, then the higher-ranked source, then
      the name. */
  predicate Preferred(rank: string -> int, a: string, b: string) {
    if Slashes(a) != Slashes(b) then Slashes(a) < Slashes(b)
    else if rank(a) != rank(b) then rank(a) > rank(b)
    else LexLess(a, b)
  }

  lemma PreferenceIsAStrictTotalOrder(rank: string -> int, a: string, b: string, c: string)
    ensures !Preferred(rank, a, a)
    ensures a == b || Preferred(rank, a, b) || Preferred(rank, b, a)
    ensures Preferred(rank, a, b) && Preferred(rank, b, c) ==> Preferred(rank, a, c)
  {
    LexIsTotal(a, b);
    LexIsTotal(a, a);
    if LexLess(a, b) && LexLess(b, c) {
      LexIsTransitive(a, b, c);
    }
  }

  function LastSlash(s: string): (i: int)
    ensures -1 <= i < |s|
    ensures i >= 0 ==> s[i] == '/'
    ensures forall j :: i < j < |s| ==> s[j] != '/'
  {
    if s == "" then -1 else if s[|s| - 1] == '/' then |s| - 1 else LastSlash(s[..|s| - 1])
  }

  /** k ends in a last segment q. */
  predicate HasBasename(k: string, q: string) {
    LastSlash(k) >= 0 && k[LastSlash(k) + 1..] == q
  }

  predicate IsCandidate(q: string, keys: set<string>, k: string) {
    '/' !in q && k in keys && HasBasename(k, q)
  }

  predicate IsWinner(rank: string -> int, q: string, keys: set<string>, w: string) {
    IsCandidate(q, keys, w) && forall k :: k in keys && IsCandidate(q, keys, k) && k != w ==> Preferred(rank, w, k)
  }

  /** basenameCandidates and pickBasenameWinner, scanning in any order. */
  method PickBasename(q: string, keys: set<string>, rank: string -> int) returns (best: Option<string>)
    ensures best.None? ==> forall k :: k in keys ==> !IsCandidate(q, keys, k)
    ensures best.Some? ==> IsWinner(rank, q, keys, best.value)
  {
    best := None;
    if '/' in q {
      return;
    }
    var todo := keys;
    while todo != {}
      invariant todo <= keys
      invariant best.None? ==> forall k :: k in keys && k !in todo ==> !IsCandidate(q, keys, k)
      invariant best.Some? ==> IsCandidate(q, keys, best.value)
      invariant best.Some? ==> forall k :: k in keys && k !in todo && IsCandidate(q, keys, k) && k != best.value ==> Preferred(rank, best.value, k)
      decreases |todo|
    {
      hide LastSlash, LexLess, Slashes, Preferred;
      var k :| k in todo;
      todo := todo - {k};
      var i := LastSlash(k);
      if i >= 0 && k[i + 1..] == q {
        if best.None? || Preferred(rank, k, best.value) {
          forall m | best.Some? ensures Preferred(rank, best.value, m) ==> Preferred(rank, k, m) {
            PreferenceIsAStrictTotalOrder(rank, k, best.value, m);
          }
          best := Some(k);
        } else {
          PreferenceIsAStrictTotalOrder(rank, k, best.value, k);
        }
      }
    }
  }

  lemma WinnerIsUnique(rank: string -> int, q: string, keys: set<string>, v: string, w: string)
    requires IsWinner(rank, q, keys, v) && IsWinner(rank, q, keys, w)
    ensures v == w
  {
    if v != w {
      PreferenceIsAStrictTotalOrder(rank, v, w, v);
    }
  }

  lemma LastSlashIs(k: string, i: int)
    requires 0 <= i < |k| && k[i] == '/' && forall j :: i < j < |k| ==> k[j] != '/'
    ensures LastSlash(k) == i
  {
  }

  /** For a bare name that is: the key ends in a slash and the name. */
  lemma BasenameIsASuffix(k: string, q: string)
    requires '/' !in q
    ensures HasBasename(k, q) <==> EndsWith(k, "/" + q)
  {
    hide LastSlash;
    var i := |k| - |q| - 1;
    if EndsWith(k, "/" + q) {
      assert k[i..] == "/" + q;
      assert forall j :: i <= j < |k| ==> k[j] == ("/" + q)[j - i];
      LastSlashIs(k, i);
      assert k[i + 1..] == q;
    }
    if HasBasename(k, q) {
      var m := LastSlash(k);
      assert k[m] == '/' && k[m..] == "/" + k[m + 1..];
    }
  }

  // ---------- The registry ----------

  datatype Entry = Entry(model: string, aliases: seq<string>, source: string, input: real, output: real, cacheRead: real, cacheCreate: real)

  /** Entry.Calc over the reals. No usage costs nothing, whatever the rates. */
  function Cost(e: Entry, input: int, output: int, cacheRead: int, cacheCreate: int): (usd: real)
    ensures input == output == cacheRead == cacheCreate == 0 ==> usd == 0.0
  {
    var cr := if e.cacheRead == 0.0 then e.input * 0.1 else e.cacheRead;
    var cc := if e.cacheCreate == 0.0 then e.input * 1.25 else e.cacheCreate;
    input as real * e.input + output as real * e.output + cacheRead as real * cr + cacheCreate as real * cc
  }

  function SourceRank(source: string): int {
    if source == "user" then 40
    else if source == "litellm" then 30
    else if source == "openrouter" then 20
    else if source == "seed" then 10
    else 0
  }

  /** An alias of e that enters the index. */
  predicate Claims(e: Entry, alias: string) {
    alias != "" && alias != e.model && exists i :: 0 <= i < |e.aliases| && NormalizeModel(e.aliases[i]) == alias
  }

  /** What walking the entries in this order leaves in the alias index. */
  function AliasIndex(order: seq<Entry>, before: map<string, string>): (index: map<string, string>)
    decreases |order|
  {
    if order == [] then before
    else AddAliases(order[|order| - 1], AliasIndex(order[..|order| - 1], before), |order[|order| - 1].aliases|)
  }

  function AddAliases(e: Entry, index: map<string, string>, n: nat): map<string, string>
    requires n <= |e.aliases|
    decreases n
  {
    if n == 0 then index
    else
      var rest := AddAliases(e, index, n - 1);
      var alias := NormalizeModel(e.aliases[n - 1]);
      if alias == "" || alias == e.model then rest else rest[alias := e.model]
  }

  lemma {:induction false} AddAliasesAt(e: Entry, index: map<string, string>, n: nat, alias: string)
    requires n <= |e.aliases|
    ensures var claimed := alias != "" && alias != e.model && exists i :: 0 <= i < n && NormalizeModel(e.aliases[i]) == alias;
      var next := AddAliases(e, index, n);
      (alias in next <==> claimed || alias in index) && (alias in next ==> next[alias] == if claimed then e.model else index[alias])
    decreases n
  {
    hide NormalizeModel;
    if n > 0 {
      AddAliasesAt(e, index, n - 1, alias);
    }
  }

  /** The last entry that claims an alias has it. */
  function LastClaim(order: seq<Entry>, alias: string): (r: int)
    ensures -1 <= r < |order|
    ensures r >= 0 ==> Claims(order[r], alias)
    ensures forall i :: r < i < |order| ==> !Claims(order[i], alias)
  {
    if order == [] then -1
    else if Claims(order[|order| - 1], alias) then |order| - 1
    else LastClaim(order[..|order| - 1], alias)
  }

  lemma {:induction false} AliasGoesToLastClaim(order: seq<Entry>, before: map<string, string>, alias: string)
    ensures var index := AliasIndex(order, before); var last := LastClaim(order, alias);
      && (alias in index <==> last >= 0 || alias in before)
      && (alias in index ==> index[alias] == if last >= 0 then order[last].model else before[alias])
    decreases |order|
  {
    hide NormalizeModel, AddAliases;
    if order != [] {
      var n := |order| - 1;
      AliasGoesToLastClaim(order[..n], before, alias);
      AddAliasesAt(order[n], AliasIndex(order[..n], before), |order[n].aliases|, alias);
    }
  }

  function Index(table: seq<Entry>, user: seq<Entry>): map<string, string> {
    AliasIndex(user, AliasIndex(table, map[]))
  }

  predicate Claimed(order: seq<Entry>, alias: string) {
    exists i :: 0 <= i < |order| && Claims(order[i], alias)
  }

  predicate OneClaimant(order: seq<Entry>, alias: string) {
    forall i, j :: 0 <= i < |order| && 0 <= j < |order| && Claims(order[i], alias) && Claims(order[j], alias) ==> order[i].model == order[j].model
  }

  /** Each alias has one claimant among the overrides, or, where no override
      claims it, one in the table. */
  ghost predicate Unambiguous(table: seq<Entry>, user: seq<Entry>) {
    forall alias :: OneClaimant(user, alias) && (Claimed(user, alias) || OneClaimant(table, alias))
  }

  /** The index does not depend on the order in which the maps are walked. */
  ghost predicate OrderFree(table: seq<Entry>, user: seq<Entry>) {
    forall t, u :: multiset(t) == multiset(table) && multiset(u) == multiset(user) ==> Index(t, u) == Index(table, user)
  }

  lemma IndexAt(table: seq<Entry>, user: seq<Entry>, alias: string)
    ensures var index := Index(table, user);
      var t, u := LastClaim(table, alias), LastClaim(user, alias);
      && (alias in index <==> t >= 0 || u >= 0)
      && (alias in index ==> index[alias] == if u >= 0 then user[u].model else table[t].model)
  {
    hide LastClaim, AliasIndex;
    AliasGoesToLastClaim(table, map[], alias);
    AliasGoesToLastClaim(user, AliasIndex(table, map[]), alias);
  }

  /** Reordering keeps who claims. */
  lemma ClaimantsOfReordered(a: seq<Entry>, b: seq<Entry>, alias: string)
    requires multiset(a) == multiset(b)
    ensures var i, j := LastClaim(a, alias), LastClaim(b, alias);
      (i >= 0 <==> j >= 0) && (i >= 0 && OneClaimant(b, alias) ==> a[i].model == b[j].model)
  {
    hide LastClaim, Claims;
    var i, j := LastClaim(a, alias), LastClaim(b, alias);
    if i >= 0 {
      assert a[i] in multiset(b);
      var k :| 0 <= k < |b| && b[k] == a[i];
      assert Claims(b[k], alias);
    }
    if j >= 0 {
      assert b[j] in multiset(a);
      var k :| 0 <= k < |a| && a[k] == b[j];
      assert Claims(a[k], alias);
    }
  }

  lemma UnambiguousIsOrderFree(table: seq<Entry>, user: seq<Entry>, t: seq<Entry>, u: seq<Entry>)
    requires Unambiguous(table, user) && multiset(t) == multiset(table) && multiset(u) == multiset(user)
    ensures Index(t, u) == Index(table, user)
  {
    hide LastClaim, Index, Claims, OneClaimant;
    var a, b := Index(t, u), Index(table, user);
    forall alias ensures (alias in a <==> alias in b) && (alias in a ==> a[alias] == b[alias]) {
      IndexAt(t, u, alias);
      IndexAt(table, user, alias);
      ClaimantsOfReordered(t, table, alias);
      ClaimantsOfReordered(u, user, alias);
    }
    assert a.Keys == b.Keys;
  }

  function ToEnd(order: seq<Entry>, i: int): (r: seq<Entry>)
    requires 0 <= i < |order|
    ensures |r| == |order| && multiset(r) == multiset(order) && r[|r| - 1] == order[i]
  {
    assert order == order[..i] + [order[i]] + order[i + 1..];
    order[..i] + order[i + 1..] + [order[i]]
  }

  /** Two claimants of one alias: whoever is walked last gets it. */
  lemma RivalsDependOnOrder(order: seq<Entry>, alias: string, i: int, j: int)
    requires 0 <= i < |order| && 0 <= j < |order| && Claims(order[i], alias) && Claims(order[j], alias)
    ensures LastClaim(ToEnd(order, i), alias) == LastClaim(ToEnd(order, j), alias) == |order| - 1
  {
  }

  lemma RivalOverridesMatter(table: seq<Entry>, user: seq<Entry>, alias: string, i: int, j: int)
    requires 0 <= i < |user| && 0 <= j < |user| && Claims(user[i], alias) && Claims(user[j], alias) && user[i].model != user[j].model
    ensures !OrderFree(table, user)
  {
    hide LastClaim, Index, Claims, ToEnd;
    RivalsDependOnOrder(user, alias, i, j);
    IndexAt(table, ToEnd(user, i), alias);
    IndexAt(table, ToEnd(user, j), alias);
    assert Index(table, ToEnd(user, i)) != Index(table, ToEnd(user, j));
  }

  lemma RivalEntriesMatter(table: seq<Entry>, user: seq<Entry>, alias: string, i: int, j: int)
    requires 0 <= i < |table| && 0 <= j < |table| && Claims(table[i], alias) && Claims(table[j], alias) && table[i].model != table[j].model
    requires !Claimed(user, alias)
    ensures !OrderFree(table, user)
  {
    hide LastClaim, Index, Claims, ToEnd;
    RivalsDependOnOrder(table, alias, i, j);
    IndexAt(ToEnd(table, i), user, alias);
    IndexAt(ToEnd(table, j), user, alias);
    assert LastClaim(user, alias) < 0;
    assert Index(ToEnd(table, i), user) != Index(ToEnd(table, j), user);
  }

  /** Which alias wins is left to chance exactly when two entries of the layer
      that decides it claim the same alias for different models. */
  lemma IndexOrderMatters(table: seq<Entry>, user: seq<Entry>)
    ensures OrderFree(table, user) <==> Unambiguous(table, user)
  {
    hide Index, Claims;
    if Unambiguous(table, user) {
      forall t, u | multiset(t) == multiset(table) && multiset(u) == multiset(user) ensures Index(t, u) == Index(table, user) {
        UnambiguousIsOrderFree(table, user, t, u);
      }
    } else {
      var alias :| !(OneClaimant(user, alias) && (Claimed(user, alias) || OneClaimant(table, alias)));
      if !OneClaimant(user, alias) {
        var i, j :| 0 <= i < |user| && 0 <= j < |user| && Claims(user[i], alias) && Claims(user[j], alias) && user[i].model != user[j].model;
        RivalOverridesMatter(table, user, alias, i, j);
      } else {
        var i, j :| 0 <= i < |table| && 0 <= j < |table| && Claims(table[i], alias) && Claims(table[j], alias) && table[i].model != table[j].model;
        RivalEntriesMatter(table, user, alias, i, j);
      }
    }
  }

  type Layer = map<string, Entry>

  predicate Keyed(layer: Layer) {
    forall k :: k in layer ==> layer[k].model == k
  }

  /** User overrides shadow the table. */
  function Resolve(user: Layer, table: Layer, key: string): Option<Entry> {
    if key in user then Some(user[key]) else if key in table then Some(table[key]) else None
  }

  function RankIn(user: Layer, table: Layer): string -> int {
    k => var e := Resolve(user, table, k); if e.Some? then SourceRank(e.value.source) else 0
  }

  /** The order in which one walk of a map yields its entries. */
  predicate Walks(order: seq<Entry>, layer: Layer) {
    && (forall i :: 0 <= i < |order| ==> order[i].model in layer && layer[order[i].model] == order[i])
    && (forall k :: k in layer ==> layer[k] in order)
    && (forall i, j :: 0 <= i < j < |order| ==> order[i].model != order[j].model)
  }

  /** What a lookup of the normalized name q may answer. */
  predicate Finds(user: Layer, table: Layer, keys: set<string>, aliases: map<string, string>, q: string, r: Match) {
    var m := MatchKey(q, keys, aliases);
    if q == "" || m != Miss then r == m
    else if r == Miss then forall k :: k in keys ==> !IsCandidate(q, keys, k)
    else r.Basename? && IsWinner(RankIn(user, table), q, keys, r.key)
  }

  /** It may answer one thing: no map order shows in a price. */
  lemma LookupIsDetermined(user: Layer, table: Layer, keys: set<string>, aliases: map<string, string>, q: string, r: Match, s: Match)
    requires Finds(user, table, keys, aliases, q, r) && Finds(user, table, keys, aliases, q, s)
    ensures r == s
  {
    hide MatchKey, HasBasename;
    if r.Basename? && s.Basename? && MatchKey(q, keys, aliases) == Miss {
      WinnerIsUnique(RankIn(user, table), q, keys, r.key, s.key);
    }
  }

  /** What a model may cost: the rates of the entry found for it, or nothing. */
  ghost predicate Charges(user: Layer, table: Layer, keys: set<string>, aliases: map<string, string>,
                          model: string, input: int, output: int, cacheRead: int, cacheCreate: int, usd: real) {
    exists m :: Finds(user, table, keys, aliases, NormalizeModel(model), m)
                && usd == EntryCost(Found(user, table, m), input, output, cacheRead, cacheCreate)
  }

  function Found(user: Layer, table: Layer, m: Match): Option<Entry> {
    if m == Miss then None else Resolve(user, table, m.key)
  }

  function EntryCost(e: Option<Entry>, input: int, output: int, cacheRead: int, cacheCreate: int): real {
    if e.Some? then Cost(e.value, input, output, cacheRead, cacheCreate) else 0.0
  }

  /** For given tables and index a model has one price, and no usage is free. */
  lemma ChargeIsDetermined(user: Layer, table: Layer, keys: set<string>, aliases: map<string, string>,
                           model: string, input: int, output: int, cacheRead: int, cacheCreate: int, usd: real, other: real)
    requires Charges(user, table, keys, aliases, model, input, output, cacheRead, cacheCreate, usd)
    requires Charges(user, table, keys, aliases, model, input, output, cacheRead, cacheCreate, other)
    ensures usd == other && (input == output == cacheRead == cacheCreate == 0 ==> usd == 0.0)
  {
    hide Finds, Cost, Resolve, NormalizeModel;
    var m :| Finds(user, table, keys, aliases, NormalizeModel(model), m)
             && usd == EntryCost(Found(user, table, m), input, output, cacheRead, cacheCreate);
    var n :| Finds(user, table, keys, aliases, NormalizeModel(model), n)
             && other == EntryCost(Found(user, table, n), input, output, cacheRead, cacheCreate);
    LookupIsDetermined(user, table, keys, aliases, NormalizeModel(model), m, n);
  }

  const MISS_LIMIT := 64

  class Registry {
    var userByKey: Layer
    var tableByKey: Layer
    var keys: set<string>
    var aliasIndex: map<string, string>
    var missCounts: map<string, int>
    var missOrder: seq<string>

    ghost predicate Indexed()
      reads this
    {
      && Keyed(userByKey) && Keyed(tableByKey)
      && keys == userByKey.Keys + tableByKey.Keys
      && (forall a :: a in aliasIndex ==> aliasIndex[a] in keys)
    }

    ghost predicate MissesBounded()
      reads this
    {
      && |missOrder| <= MISS_LIMIT
      && (forall i, j :: 0 <= i < j < |missOrder| ==> missOrder[i] != missOrder[j])
      && (forall m :: m in missCounts <==> m in missOrder)
    }

    constructor (user: Layer)
      requires Keyed(user)
      ensures userByKey == user && tableByKey == map[] && missCounts == map[] && missOrder == []
    {
      userByKey, tableByKey, keys, aliasIndex, missCounts, missOrder := user, map[], {}, map[], map[], [];
    }

    method AddLayer(layer: Layer) returns (ghost order: seq<Entry>)
      requires Keyed(layer)
      modifies this`keys, this`aliasIndex
      ensures keys == old(keys) + layer.Keys
      ensures Walks(order, layer) && aliasIndex == AliasIndex(order, old(aliasIndex))
    {
      hide NormalizeModel, AddAliases, Walks, AliasIndex, Walked;
      order := [];
      IndexOfNothing(aliasIndex);
      var todo := layer.Keys;
      WalkNothing(layer);
      while todo != {}
        invariant todo <= layer.Keys
        invariant Walks(order, Walked(layer, todo))
        invariant keys == old(keys) + (layer.Keys - todo)
        invariant aliasIndex == AliasIndex(order, old(aliasIndex))
        decreases |todo|
      {
        var k :| k in todo;
        var e := layer[k];
        AddEntry(e);
        WalkOneMore(order, layer, todo, k);
        IndexOfNext(order, e, old(aliasIndex));
        order := order + [e];
        todo := todo - {k};
      }
    }

    method AddEntry(e: Entry)
      modifies this`keys, this`aliasIndex
      ensures keys == old(keys) + {e.model}
      ensures aliasIndex == AddAliases(e, old(aliasIndex), |e.aliases|)
    {
      hide NormalizeModel;
      keys := keys + {e.model};
      for i := 0 to |e.aliases|
        invariant keys == old(keys) + {e.model}
        invariant aliasIndex == AddAliases(e, old(aliasIndex), i)
      {
        var alias := NormalizeModel(e.aliases[i]);
        if alias == "" || alias == e.model {
          continue;
        }
        aliasIndex := aliasIndex[alias := e.model];
      }
    }

    /** Reload, then rebuildIndexLocked: overrides are walked last. */
    method Reload(table: Layer) returns (ghost t: seq<Entry>, ghost u: seq<Entry>)
      requires Keyed(table) && Keyed(userByKey)
      modifies this`tableByKey, this`keys, this`aliasIndex
      ensures tableByKey == table && Indexed()
      ensures Walks(t, table) && Walks(u, userByKey) && aliasIndex == Index(t, u)
    {
      hide AliasIndex, Walks, LastClaim;
      tableByKey := table;
      keys, aliasIndex := {}, map[];
      t := AddLayer(table);
      u := AddLayer(userByKey);
      forall a | a in aliasIndex ensures aliasIndex[a] in keys {
        IndexAt(t, u, a);
        WalkedModels(t, table);
        WalkedModels(u, userByKey);
      }
    }

    method RecordMiss(model: string)
      requires MissesBounded()
      modifies this`missCounts, this`missOrder
      ensures MissesBounded()
      ensures model in missCounts && missCounts[model] == (if model in old(missCounts) then old(missCounts)[model] else 0) + 1
      ensures forall m :: m in old(missCounts) && m != model ==>
                (m in missCounts && missCounts[m] == old(missCounts)[m]) || (|old(missOrder)| == MISS_LIMIT && m == old(missOrder)[0])
    {
      if model !in missCounts {
        if |missOrder| >= MISS_LIMIT {
          var oldest := missOrder[0];
          missOrder := missOrder[1..];
          missCounts := missCounts - {oldest};
        }
        missOrder := missOrder + [model];
      }
      missCounts := missCounts[model := (if model in missCounts then missCounts[model] else 0) + 1];
    }

    /** The answer, and the entry of the key it names: that entry exists. */
    method Lookup(model: string) returns (r: Match, entry: Option<Entry>)
      requires Indexed() && MissesBounded()
      modifies this`missCounts, this`missOrder
      ensures Indexed() && MissesBounded()
      ensures Finds(userByKey, tableByKey, keys, aliasIndex, NormalizeModel(model), r)
      ensures entry == if r == Miss then None else Resolve(userByKey, tableByKey, r.key)
      ensures r != Miss ==> entry.Some?
      ensures r != Miss || NormalizeModel(model) == "" ==> missCounts == old(missCounts)
    {
      hide IsCandidate, IsWinner, LongestPrefix, StripVariants, NormalizeModel;
      var q := NormalizeModel(model);
      if q == "" {
        return Miss, None;
      }
      NormalizeModelIsIdempotent(model);
      r := FindKey(q, keys, aliasIndex);
      FoundKeyIsAKey(q, keys, aliasIndex);
      if r == Miss {
        var best := PickBasename(q, keys, RankIn(userByKey, tableByKey));
        if best.Some? {
          r := Basename(best.value);
          WinnerIsAKey(RankIn(userByKey, tableByKey), q, keys, best.value);
        }
      }
      if r == Miss {
        RecordMiss(q);
        return Miss, None;
      }
      entry := Resolve(userByKey, tableByKey, r.key);
    }

    method Calc(model: string, input: int, output: int, cacheRead: int, cacheCreate: int) returns (usd: real)
      requires Indexed() && MissesBounded()
      modifies this`missCounts, this`missOrder
      ensures Indexed() && MissesBounded()
      ensures Charges(userByKey, tableByKey, keys, aliasIndex, model, input, output, cacheRead, cacheCreate, usd)
    {
      hide Finds, Cost, Resolve, NormalizeModel;
      var r, entry := Lookup(model);
      if entry.None? {
        usd := 0.0;
      } else {
        usd := Cost(entry.value, input, output, cacheRead, cacheCreate);
      }
      assert usd == EntryCost(Found(userByKey, tableByKey, r), input, output, cacheRead, cacheCreate);
    }
  }

  /** The entries a walk has left behind. */
  function Walked(layer: Layer, todo: set<string>): Layer {
    map k | k in layer && k !in todo :: layer[k]
  }

  lemma WalkNothing(layer: Layer)
    ensures Walks([], Walked(layer, layer.Keys)) && Walked(layer, {}) == layer
  {
  }

  lemma IndexOfNothing(index: map<string, string>)
    ensures AliasIndex([], index) == index
  {
  }

  lemma IndexOfNext(order: seq<Entry>, e: Entry, index: map<string, string>)
    ensures AliasIndex(order + [e], index) == AddAliases(e, AliasIndex(order, index), |e.aliases|)
  {
    hide AddAliases;
    assert (order + [e])[..|order|] == order;
  }

  lemma WalkOneMore(order: seq<Entry>, layer: Layer, todo: set<string>, k: string)
    requires Keyed(layer) && k in todo && k in layer && Walks(order, Walked(layer, todo))
    ensures Walks(order + [layer[k]], Walked(layer, todo - {k}))
  {
    var next, after := order + [layer[k]], Walked(layer, todo - {k});
    forall m | m in after ensures after[m] in next {
      if m == k {
        assert next[|order|] == layer[k];
      } else {
        assert Walked(layer, todo)[m] in order;
      }
    }
  }

  lemma WalkedModels(order: seq<Entry>, layer: Layer)
    requires Walks(order, layer)
    ensures forall i :: 0 <= i < |order| ==> order[i].model in layer
  {
  }

  lemma FoundKeyIsAKey(q: string, keys: set<string>, aliases: map<string, string>)
    requires forall a :: a in aliases ==> aliases[a] in keys
    ensures var m := MatchKey(q, keys, aliases); m != Miss ==> m.key in keys && !m.Basename?
  {
    hide StripVariants;
    LongestPrefixIsLongest(q, keys, |q|);
  }

  lemma WinnerIsAKey(rank: string -> int, q: string, keys: set<string>, w: string)
    requires IsWinner(rank, q, keys, w)
    ensures w in keys
  {
  }
}
