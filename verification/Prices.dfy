/** What a name is priced as and what a price is made of, said without the
    functions that compute it. */
module Prices {
  import opened Rows
  import opened Pricing

  // ---------- The four rates ----------

  lemma RateTimes(a: int, b: int, rate: real)
    ensures (a + b) as real * rate == a as real * rate + b as real * rate
  {
  }

  /** Counters priced together cost what they cost apart. */
  lemma CostIsAdditive(e: Entry, i: int, o: int, r: int, c: int, i': int, o': int, r': int, c': int)
    ensures Cost(e, i + i', o + o', r + r', c + c') == Cost(e, i, o, r, c) + Cost(e, i', o', r', c')
  {
    var cr := if e.cacheRead == 0.0 then e.input * 0.1 else e.cacheRead;
    var cc := if e.cacheCreate == 0.0 then e.input * 1.25 else e.cacheCreate;
    RateTimes(i, i', e.input);
    RateTimes(o, o', e.output);
    RateTimes(r, r', cr);
    RateTimes(c, c', cc);
  }

  /** One token of each kind costs its own rate; a cache rate that is missing is a
      tenth of the input rate for reads and five quarters of it for writes. */
  lemma OneTokenCostsItsRate(e: Entry)
    ensures Cost(e, 1, 0, 0, 0) == e.input && Cost(e, 0, 1, 0, 0) == e.output
    ensures Cost(e, 0, 0, 1, 0) == if e.cacheRead == 0.0 then e.input / 10.0 else e.cacheRead
    ensures Cost(e, 0, 0, 0, 1) == if e.cacheCreate == 0.0 then e.input * 5.0 / 4.0 else e.cacheCreate
  {
  }

  predicate RatesAreCharges(e: Entry) {
    e.input >= 0.0 && e.output >= 0.0 && e.cacheRead >= 0.0 && e.cacheCreate >= 0.0
  }

  lemma RateNeverNegative(n: int, rate: real)
    requires n >= 0 && rate >= 0.0
    ensures n as real * rate >= 0.0
  {
  }

  lemma CostIsNeverNegative(e: Entry, i: int, o: int, r: int, c: int)
    requires RatesAreCharges(e) && i >= 0 && o >= 0 && r >= 0 && c >= 0
    ensures Cost(e, i, o, r, c) >= 0.0
  {
    RateNeverNegative(i, e.input);
    RateNeverNegative(o, e.output);
    RateNeverNegative(r, if e.cacheRead == 0.0 then e.input * 0.1 else e.cacheRead);
    RateNeverNegative(c, if e.cacheCreate == 0.0 then e.input * 1.25 else e.cacheCreate);
  }

  /** Raising a counter never lowers the price. */
  lemma CostGrows(e: Entry, i: int, o: int, r: int, c: int, i': int, o': int, r': int, c': int)
    requires RatesAreCharges(e) && i <= i' && o <= o' && r <= r' && c <= c'
    ensures Cost(e, i, o, r, c) <= Cost(e, i', o', r', c')
  {
    CostIsNeverNegative(e, i' - i, o' - o, r' - r, c' - c);
    CostIsAdditive(e, i, o, r, c, i' - i, o' - o, r' - r, c' - c);
  }

  /** What a registry charges for counters together is what it charges for them
      apart, whatever it finds for the model. */
  lemma ChargesAdd(user: Layer, table: Layer, keys: set<string>, aliases: map<string, string>, model: string,
                   i: int, o: int, r: int, c: int, i': int, o': int, r': int, c': int, one: real, other: real, both: real)
    requires Charges(user, table, keys, aliases, model, i, o, r, c, one)
    requires Charges(user, table, keys, aliases, model, i', o', r', c', other)
    requires Charges(user, table, keys, aliases, model, i + i', o + o', r + r', c + c', both)
    ensures both == one + other
  {
    hide Finds, Cost, Resolve, NormalizeModel;
    var m :| Finds(user, table, keys, aliases, NormalizeModel(model), m) && one == EntryCost(Found(user, table, m), i, o, r, c);
    ChargeIsOf(user, table, keys, aliases, model, m, i', o', r', c', other);
    ChargeIsOf(user, table, keys, aliases, model, m, i + i', o + o', r + r', c + c', both);
    if Found(user, table, m).Some? {
      CostIsAdditive(Found(user, table, m).value, i, o, r, c, i', o', r', c');
    }
  }

  lemma ChargeIsOf(user: Layer, table: Layer, keys: set<string>, aliases: map<string, string>, model: string, m: Match,
                   i: int, o: int, r: int, c: int, usd: real)
    requires Finds(user, table, keys, aliases, NormalizeModel(model), m) && Charges(user, table, keys, aliases, model, i, o, r, c, usd)
    ensures usd == EntryCost(Found(user, table, m), i, o, r, c)
  {
    hide Finds, Cost, Resolve, NormalizeModel;
    var n :| Finds(user, table, keys, aliases, NormalizeModel(model), n) && usd == EntryCost(Found(user, table, n), i, o, r, c);
    LookupIsDetermined(user, table, keys, aliases, NormalizeModel(model), m, n);
  }

  /** The entry of the key a match names, an override before the table. */
  predicate Prices(user: Layer, table: Layer, m: Match, e: Entry) {
    m != Miss && if m.key in user then user[m.key] == e else m.key in table && table[m.key] == e
  }

  /** A registry charges the found entry's rate for one token of a kind, and nothing
      for a model it does not find. */
  lemma OneTokenIsCharged(user: Layer, table: Layer, keys: set<string>, aliases: map<string, string>, model: string, m: Match, e: Entry,
                          i: real, o: real, r: real, c: real)
    requires Finds(user, table, keys, aliases, NormalizeModel(model), m) && Prices(user, table, m, e)
    requires Charges(user, table, keys, aliases, model, 1, 0, 0, 0, i) && Charges(user, table, keys, aliases, model, 0, 1, 0, 0, o)
    requires Charges(user, table, keys, aliases, model, 0, 0, 1, 0, r) && Charges(user, table, keys, aliases, model, 0, 0, 0, 1, c)
    ensures i == e.input && o == e.output
    ensures r == if e.cacheRead == 0.0 then e.input / 10.0 else e.cacheRead
    ensures c == if e.cacheCreate == 0.0 then e.input * 5.0 / 4.0 else e.cacheCreate
  {
    hide Finds, Cost, NormalizeModel, Charges;
    ChargeIsOf(user, table, keys, aliases, model, m, 1, 0, 0, 0, i);
    ChargeIsOf(user, table, keys, aliases, model, m, 0, 1, 0, 0, o);
    ChargeIsOf(user, table, keys, aliases, model, m, 0, 0, 1, 0, r);
    ChargeIsOf(user, table, keys, aliases, model, m, 0, 0, 0, 1, c);
    OneTokenCostsItsRate(e);
  }

  lemma UnknownIsFree(user: Layer, table: Layer, keys: set<string>, aliases: map<string, string>, model: string,
                      i: int, o: int, r: int, c: int, usd: real)
    requires Finds(user, table, keys, aliases, NormalizeModel(model), Miss) && Charges(user, table, keys, aliases, model, i, o, r, c, usd)
    ensures usd == 0.0
  {
    hide Finds, Cost, NormalizeModel, Charges;
    ChargeIsOf(user, table, keys, aliases, model, Miss, i, o, r, c, usd);
  }

  // ---------- Names ----------

  /** A dash and eight digits. */
  predicate IsDate(d: string) {
    |d| == 9 && d[0] == '-' && forall i :: 1 <= i < 9 ==> '0' <= d[i] && d[i] <= '9'
  }

  predicate IsTag(t: string) {
    t == "-preview" || t == "-latest" || t == "-exp" || t == "-beta" || t == "-alpha"
  }

  /** v is q, or q without its date, without its tag, or without a date before its tag. */
  predicate IsVariant(q: string, v: string) {
    v <= q && (v == q || IsDate(q[|v|..]) || IsTag(q[|v|..]) || (|q| >= |v| + 9 && IsDate(q[|v|..|v| + 9]) && IsTag(q[|v| + 9..])))
  }

  lemma DateIsCut(s: string, v: string)
    ensures WithoutDate(s) == v && v != s <==> v <= s && IsDate(s[|v|..])
  {
    if HasDate(s) {
      var n := |s| - 9;
      assert s[n..][0] == s[n] && forall i :: 1 <= i < 9 ==> s[n..][i] == s[n + i];
    }
    if v <= s && IsDate(s[|v|..]) {
      var d := s[|v|..];
      assert s[|s| - 9] == d[0] && forall i :: |s| - 8 <= i < |s| ==> s[i] == d[i - |v|];
      assert s[..|s| - 9] == v;
    }
  }

  lemma TagIsCut(s: string, v: string)
    ensures WithoutTag(s) == v && v != s <==> v <= s && IsTag(s[|v|..])
  {
    if WithoutTag(s) == v && v != s {
      var k :| 0 <= k < |TAGS| && s == v + TAGS[k];
      assert s[|v|..] == TAGS[k];
    }
    if v <= s && IsTag(s[|v|..]) {
      TagsEndApart(s, s[|v|..]);
      assert s[..|s| - |s[|v|..]|] == v;
    }
  }

  function LastThree(s: string): (char, char, char)
    requires |s| >= 3
  {
    (s[|s| - 3], s[|s| - 2], s[|s| - 1])
  }

  lemma EndsAlike(s: string, e: string)
    requires EndsWith(s, e) && |e| >= 3
    ensures LastThree(s) == LastThree(e)
  {
    var t := s[|s| - |e|..];
    assert t[|e| - 3] == s[|s| - 3] && t[|e| - 2] == s[|s| - 2] && t[|e| - 1] == s[|s| - 1];
  }

  lemma TagEndings()
    ensures LastThree(TAGS[0]) == ('i', 'e', 'w') && LastThree(TAGS[1]) == ('e', 's', 't') && LastThree(TAGS[2]) == ('e', 'x', 'p')
    ensures LastThree(TAGS[3]) == ('e', 't', 'a') && LastThree(TAGS[4]) == ('p', 'h', 'a')
  {
  }

  /** The tags end in different ways, so a name ends in one at most. */
  lemma OneTagAtMost(s: string, j: nat, k: nat)
    requires j < 5 && k < 5 && EndsWith(s, TAGS[j]) && EndsWith(s, TAGS[k])
    ensures j == k
  {
    hide EndsWith, LastThree;
    EndsAlike(s, TAGS[j]);
    EndsAlike(s, TAGS[k]);
    TagEndings();
  }

  lemma TagsEndApart(s: string, t: string)
    requires IsTag(t) && EndsWith(s, t)
    ensures WithoutTag(s) == s[..|s| - |t|]
  {
    hide EndsWith;
    var j := if t == "-preview" then 0 else if t == "-latest" then 1 else if t == "-exp" then 2 else if t == "-beta" then 3 else 4;
    assert t == TAGS[j];
    forall k: nat | k < 5 && k != j ensures !EndsWith(s, TAGS[k]) {
      if EndsWith(s, TAGS[k]) {
        OneTagAtMost(s, j, k);
      }
    }
  }

  /** The names a lookup tries are exactly the variants, longest first. */
  lemma VariantsAreTried(q: string, v: string)
    ensures v in StripVariants(q) <==> IsVariant(q, v)
  {
    hide WithoutDate, WithoutTag, IsDate, IsTag;
    var dated, tagged := WithoutDate(q), WithoutTag(q);
    var both := WithoutDate(tagged);
    DateIsCut(q, v);
    TagIsCut(q, v);
    DateIsCut(tagged, v);
    TagIsCut(q, tagged);
    DateIsCut(q, dated);
    var r := StripVariants(q);
    assert v in r <==> v == q || (v == dated && dated != q) || (v == tagged && tagged != q) || (tagged != q && both != tagged && v == both);
    if tagged != q && both != tagged && v == both {
      assert |tagged| == |v| + 9 by { DatedLength(tagged, v); }
      assert tagged[|v|..] == q[|v|..|v| + 9] && q[|v| + 9..] == q[|tagged|..];
    }
    if v <= q && |q| >= |v| + 9 && IsDate(q[|v|..|v| + 9]) && IsTag(q[|v| + 9..]) {
      var t := q[..|v| + 9];
      TagIsCut(q, t);
      assert t[|v|..] == q[|v|..|v| + 9] && q[|t|..] == q[|v| + 9..];
      TagIsNotEmpty(q[|v| + 9..]);
      assert tagged == t;
    }
  }

  lemma DatedLength(s: string, v: string)
    requires WithoutDate(s) == v && v != s
    ensures |s| == |v| + 9
  {
  }

  lemma TagIsNotEmpty(t: string)
    requires IsTag(t)
    ensures t != ""
  {
  }

  lemma VariantsShrink(q: string, i: nat, j: nat)
    requires i < j < |StripVariants(q)|
    ensures |StripVariants(q)[j]| < |StripVariants(q)[i]|
  {
    hide IsDate, IsTag;
    var dated, tagged := WithoutDate(q), WithoutTag(q);
    if dated != q && tagged != q {
      DateAndTagDiffer(q);
    }
  }

  lemma TagEndsInALetter(q: string, k: nat)
    requires k < 5 && EndsWith(q, TAGS[k])
    ensures q != "" && !IsDigit(q[|q| - 1])
  {
    assert q[|q| - |TAGS[k]|..][|TAGS[k]| - 1] == q[|q| - 1];
  }

  lemma DateAndTagDiffer(q: string)
    requires WithoutDate(q) != q
    ensures WithoutTag(q) == q
  {
    hide EndsWith;
    assert IsDigit(q[|q| - 1]);
    forall k: nat | k < 5 ensures !EndsWith(q, TAGS[k]) {
      if EndsWith(q, TAGS[k]) {
        TagEndsInALetter(q, k);
      }
    }
  }

  /** The longest variant of q among some names. */
  predicate LongestVariant(q: string, names: set<string>, v: string) {
    IsVariant(q, v) && v in names && forall u :: u in names && IsVariant(q, u) ==> |u| <= |v|
  }

  lemma {:induction false} FirstIsLongest(variants: seq<string>, names: set<string>)
    requires forall i, j :: 0 <= i < j < |variants| ==> |variants[j]| < |variants[i]|
    ensures var r := FirstIn(variants, names); r.Some? ==> forall u :: u in variants && u in names ==> |u| <= |r.value|
  {
    if variants != [] && variants[0] !in names {
      FirstIsLongest(variants[1..], names);
    }
  }

  lemma FirstIsLongestVariant(q: string, names: set<string>)
    ensures var r := FirstIn(StripVariants(q), names);
      if r.Some? then LongestVariant(q, names, r.value) else forall u :: u in names ==> !IsVariant(q, u)
  {
    hide StripVariants, IsVariant;
    var vs := StripVariants(q);
    forall i, j | 0 <= i < j < |vs| ensures |vs[j]| < |vs[i]| {
      VariantsShrink(q, i, j);
    }
    FirstIsLongest(vs, names);
    forall u ensures u in vs <==> IsVariant(q, u) {
      VariantsAreTried(q, u);
    }
  }

  /** A key that the name continues after a dash, a dot or a colon. */
  predicate Continues(q: string, k: string) {
    0 < |k| < |q| && q[..|k|] == k && q[|k|] in ['-', '.', ':']
  }

  /** What a name matches: the longest variant that is a key, else the longest that
      is an alias, else the longest key it continues, else nothing. */
  lemma MatchIsByPriority(q: string, keys: set<string>, aliases: map<string, string>)
    requires q != ""
    ensures match MatchKey(q, keys, aliases)
      case Exact(k) => LongestVariant(q, keys, k)
      case Alias(k) => (forall u :: u in keys ==> !IsVariant(q, u)) && exists a :: LongestVariant(q, aliases.Keys, a) && aliases[a] == k
      case Prefix(k) =>
        && (forall u :: u in keys || u in aliases ==> !IsVariant(q, u))
        && k in keys && Continues(q, k) && forall u :: u in keys && Continues(q, u) ==> |u| <= |k|
      case Miss => forall u :: u in keys || u in aliases ==> !IsVariant(q, u) && (u in keys ==> !Continues(q, u))
      case Basename(_) => false
  {
    hide StripVariants, LongestPrefix, IsVariant, FirstIn;
    FirstIsLongestVariant(q, keys);
    FirstIsLongestVariant(q, aliases.Keys);
    LongestPrefixIsLongest(q, keys, |q|);
    forall k ensures Prefixes(k, q) <==> Continues(q, k) {
    }
  }

  // ---------- The preferred candidate ----------

  lemma {:induction false} SlashesAreCounted(s: string)
    ensures Slashes(s) == multiset(s)['/']
  {
    if s != "" {
      assert s == [s[0]] + s[1..];
      SlashesAreCounted(s[1..]);
    }
  }

  /** Before the first difference the names agree, and there the smaller one ends or
      has the smaller character. */
  predicate FirstDiffers(a: string, b: string, n: nat) {
    n <= |a| && n < |b| && a[..n] == b[..n] && (n == |a| || a[n] < b[n])
  }

  lemma {:induction false} LexIsByFirstDifference(a: string, b: string)
    ensures LexLess(a, b) <==> exists n: nat :: FirstDiffers(a, b, n)
    decreases |a|
  {
    if a == "" {
      if b != "" {
        assert FirstDiffers(a, b, 0);
      }
    } else if b != "" {
      LexIsByFirstDifference(a[1..], b[1..]);
      if a[0] < b[0] {
        assert FirstDiffers(a, b, 0);
      } else if a[0] == b[0] {
        if LexLess(a[1..], b[1..]) {
          var n: nat :| FirstDiffers(a[1..], b[1..], n);
          assert a[..n + 1] == [a[0]] + a[1..][..n] && b[..n + 1] == [b[0]] + b[1..][..n];
          assert FirstDiffers(a, b, n + 1);
        }
        if exists n: nat :: FirstDiffers(a, b, n) {
          var n: nat :| FirstDiffers(a, b, n);
          LaterDifference(a, b, n);
        }
      } else if exists n: nat :: FirstDiffers(a, b, n) {
        var n: nat :| FirstDiffers(a, b, n);
        FirstCharactersOrdered(a, b, n);
      }
    }
  }

  lemma FirstCharactersOrdered(a: string, b: string, n: nat)
    requires FirstDiffers(a, b, n) && a != "" && b != ""
    ensures a[0] < b[0] || a[0] == b[0]
  {
    if n > 0 {
      assert a[..n][0] == b[..n][0];
    }
  }

  lemma LaterDifference(a: string, b: string, n: nat)
    requires FirstDiffers(a, b, n) && a != "" && b != "" && a[0] == b[0]
    ensures n > 0 && FirstDiffers(a[1..], b[1..], n - 1)
  {
    assert n > 0;
    assert a[1..][..n - 1] == a[..n][1..] && b[1..][..n - 1] == b[..n][1..];
  }

  /** Of two keys with one number of slashes the one from the better source is
      preferred: the user, then litellm, openrouter, the seed, anything else. */
  lemma BetterSourceIsPreferred(user: Layer, table: Layer, a: string, b: string, e: Entry, f: Entry)
    requires multiset(a)['/'] == multiset(b)['/']
    requires Resolve(user, table, a) == Some(e) && Resolve(user, table, b) == Some(f)
    ensures e.source == "user" && f.source != "user" ==> Preferred(RankIn(user, table), a, b)
    ensures e.source == "litellm" && f.source != "user" && f.source != "litellm" ==> Preferred(RankIn(user, table), a, b)
    ensures e.source == "openrouter" && f.source != "user" && f.source != "litellm" && f.source != "openrouter" ==>
              Preferred(RankIn(user, table), a, b)
    ensures e.source == "seed" && f.source !in ["user", "litellm", "openrouter", "seed"] ==> Preferred(RankIn(user, table), a, b)
    ensures e.source == f.source ==> (Preferred(RankIn(user, table), a, b) <==> LexLess(a, b))
  {
    SlashesAreCounted(a);
    SlashesAreCounted(b);
  }

  lemma FewerSlashesArePreferred(rank: string -> int, a: string, b: string)
    requires multiset(a)['/'] < multiset(b)['/']
    ensures Preferred(rank, a, b)
  {
    SlashesAreCounted(a);
    SlashesAreCounted(b);
  }

  // ---------- Who is trusted ----------

  /** s is t between two stretches of white space. */
  predicate Pads(before: string, t: string, after: string, s: string) {
    Blank(before) && Blank(after) && s == before + t + after
  }

  lemma PadsMore(before: string, t: string, after: string, s: string, c: char)
    requires Pads(before, t, after, s) && IsSpace(c)
    ensures Pads([c] + before, t, after, [c] + s) && Pads(before, t, after + [c], s + [c])
  {
    hide IsSpace;
    assert [c] + s == [c] + before + t + after;
    assert s + [c] == before + t + (after + [c]);
  }

  /** Trimming takes white space from both ends and nothing else. */
  lemma {:induction false} TrimIsTheMiddle(s: string) returns (before: string, after: string)
    ensures Pads(before, Trim(s), after, s)
    decreases |s|
  {
    hide IsSpace, Pads;
    if s == "" || (!IsSpace(s[0]) && !IsSpace(s[|s| - 1])) {
      before, after := "", "";
      PadsNothing(s);
    } else if IsSpace(s[0]) {
      before, after := TrimIsTheMiddle(s[1..]);
      PadsMore(before, Trim(s[1..]), after, s[1..], s[0]);
      assert [s[0]] + s[1..] == s;
      before := [s[0]] + before;
    } else {
      var n := |s| - 1;
      before, after := TrimIsTheMiddle(s[..n]);
      PadsMore(before, Trim(s[..n]), after, s[..n], s[n]);
      assert s[..n] + [s[n]] == s;
      after := after + [s[n]];
    }
  }

  lemma PadsNothing(s: string)
    ensures Pads("", s, "", s)
  {
    assert "" + s + "" == s;
  }

  /** Whatever white space is put around a text, trimming gives the text back. */
  lemma {:induction false} TrimOfPadded(before: string, t: string, after: string, s: string)
    requires Pads(before, t, after, s) && t != "" && !IsSpace(t[0]) && !IsSpace(t[|t| - 1])
    ensures Trim(s) == t
    decreases |s|
  {
    hide IsSpace;
    if before != "" {
      assert s[0] == before[0] && s[1..] == before[1..] + t + after;
      TrimOfPadded(before[1..], t, after, s[1..]);
    } else if after != "" {
      var n := |s| - 1;
      assert before + t + after == t + after && s[0] == t[0];
      assert s[n] == after[|after| - 1] && s[..n] == before + t + after[..|after| - 1];
      TrimOfPadded(before, t, after[..|after| - 1], s[..n]);
    } else {
      assert s == t;
    }
  }

  /** t spells the word, in any case. */
  predicate Spells(t: string, word: string) {
    |t| == |word| && forall i :: 0 <= i < |word| ==> t[i] == word[i] || ('a' <= word[i] && word[i] <= 'z' && t[i] as int == word[i] as int - 32)
  }

  lemma LowerSpells(t: string, word: string)
    requires forall i :: 0 <= i < |word| ==> word[i] == '-' || ('a' <= word[i] && word[i] <= 'z')
    ensures Lower(t) == word <==> Spells(t, word)
  {
    if Lower(t) == word {
      forall i | 0 <= i < |word| ensures LowerChar(t[i]) == word[i] {
        assert Lower(t)[i] == word[i];
      }
    }
    if Spells(t, word) {
      assert Lower(t) == word;
    }
  }

  /** A reported cost is trusted exactly from a client that spells claude-code for a
      model that begins with claude-, white space around either aside. */
  lemma TrustedExactly(service: string, model: string)
    ensures Authoritative(service, model) <==>
      Spells(Trim(service), "claude-code") && |Trim(model)| >= 7 && Spells(Trim(model)[..7], "claude-")
  {
    hide IsSpace, Trim, LowerChar;
    LowerSpells(Trim(service), "claude-code");
    var m := Trim(model);
    if |m| >= 7 {
      assert Lower(m)[..7] == Lower(m[..7]);
      LowerSpells(m[..7], "claude-");
    }
  }
}
