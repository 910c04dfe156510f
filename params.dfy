/**
 * The launch-parameter bag (`**fire_kwargs` of `main`) and the vLLM command
 * flags rendered from it.
 *
 * The bag is a Python dict: an ordered sequence of (name, value) pairs in
 * insertion order. Names in a dict are distinct; `Lookup` takes the first
 * match and `Without` drops every match, which agree with `dict.get` and
 * `dict.pop` on such a sequence.
 */
module Params {
  import opened Text
  import opened Numerals

  /**
   * A parameter value as Fire hands it over. `Composite` stands for every
   * value that is not an int, float or str (a list, tuple, dict, set,
   * None, a complex number or bytes), carrying the text `str()` gives it.
   */
  datatype Value = Bool(b: bool) | Int(n: int) | Str(s: string) | Composite(repr: string)

  type Bag = seq<(string, Value)>

  /** `fire_kwargs.get(key)` */
  function Lookup(bag: Bag, key: string): (r: Option<Value>)
    ensures r.None? <==> forall j :: 0 <= j < |bag| ==> bag[j].0 != key
    ensures r.Some? ==> exists j :: 0 <= j < |bag| && bag[j] == (key, r.value)
  {
    if |bag| == 0 then None
    else if bag[0].0 == key then Some(bag[0].1)
    else
      var r := Lookup(bag[1..], key);
      assert r.Some? ==> exists j :: 0 <= j < |bag| && bag[j] == (key, r.value) by {
        if r.Some? {
          var j :| 0 <= j < |bag[1..]| && bag[1..][j] == (key, r.value);
          assert bag[j + 1] == (key, r.value);
        }
      }
      r
  }

  /** `fire_kwargs.pop(key, None)`: the bag without that name, order kept. */
  function Without(bag: Bag, key: string): (r: Bag)
    ensures forall j :: 0 <= j < |r| ==> r[j].0 != key
    ensures |r| <= |bag|
    decreases |bag|
  {
    if |bag| == 0 then []
    else if bag[0].0 == key then Without(bag[1..], key)
    else [bag[0]] + Without(bag[1..], key)
  }

  /** `k.replace('_', '-')` */
  function Hyphenate(k: string): (r: string)
    ensures |r| == |k|
    ensures forall i :: 0 <= i < |k| ==> r[i] == (if k[i] == '_' then '-' else k[i])
  {
    seq(|k|, i requires 0 <= i < |k| => if k[i] == '_' then '-' else k[i])
  }

  /** The text an f-string gives a value: Python's `str(v)`. */
  function ValueText(v: Value): string
  {
    match v
    case Bool(b) => if b then "True" else "False"
    case Int(n) => IntToString(n)
    case Str(s) => s
    case Composite(repr) => repr
  }

  /** `--name=value` for a parameter that is not a bool. */
  function ValueFlag(p: (string, Value)): string
  {
    "--" + Hyphenate(p.0) + "=" + ValueText(p.1)
  }

  /** `--name` for a bool parameter, whatever its value. */
  function ToggleFlag(p: (string, Value)): string
  {
    "--" + Hyphenate(p.0)
  }

  /** The comprehension of line 98: one `--name=value` per non-bool entry. */
  function ValueFlags(bag: Bag): seq<string>
    decreases |bag|
  {
    if |bag| == 0 then []
    else (if bag[0].1.Bool? then [] else [ValueFlag(bag[0])]) + ValueFlags(bag[1..])
  }

  /** The comprehension of lines 58-64: one `--name` per bool entry. */
  function ToggleFlags(bag: Bag): seq<string>
    decreases |bag|
  {
    if |bag| == 0 then []
    else (if bag[0].1.Bool? then [ToggleFlag(bag[0])] else []) + ToggleFlags(bag[1..])
  }

  const ItemBreak := "\n    - "

  /**
   * What follows `    - ` on the second command line of the template:
   * the value flags joined by item breaks, then `flag_kwargs_field`.
   */
  function CommandText(bag: Bag): string
  {
    var toggles := JoinWith(ToggleFlags(bag), ItemBreak);
    var field := if toggles != "" then ItemBreak + toggles else "";
    JoinWith(ValueFlags(bag), ItemBreak) + field
  }

  /** Number of entries among the first `j` whose value is (or is not) a bool. */
  function Rank(bag: Bag, j: nat, bools: bool): (r: nat)
    requires j <= |bag|
    ensures r <= j
    decreases j
  {
    if j == 0 then 0
    else Rank(bag, j - 1, bools) + (if bag[j - 1].1.Bool? == bools then 1 else 0)
  }

  // ---------------------------------------------------------------------
  // Facts

  lemma {:induction false} RankSplit(bag: Bag, j: nat, bools: bool)
    requires 0 < |bag| && j <= |bag| - 1
    ensures Rank(bag, j + 1, bools)
         == (if bag[0].1.Bool? == bools then 1 else 0) + Rank(bag[1..], j, bools)
    decreases j
  {
    if j > 0 {
      RankSplit(bag, j - 1, bools);
    }
  }

  lemma {:induction false} RankMonotone(bag: Bag, i: nat, j: nat, bools: bool)
    requires i <= j <= |bag|
    ensures Rank(bag, i, bools) <= Rank(bag, j, bools)
    decreases j - i
  {
    if i < j {
      RankMonotone(bag, i, j - 1, bools);
    }
  }

  /**
   * Insertion order: the value-flag list holds exactly one flag per non-bool
   * entry, and the flag of entry `j` sits at position "number of non-bool
   * entries before `j`".
   */
  lemma {:induction false} ValueFlagsPlaced(bag: Bag)
    ensures |ValueFlags(bag)| == Rank(bag, |bag|, false)
    ensures forall j :: 0 <= j < |bag| && !bag[j].1.Bool? ==>
              Rank(bag, j, false) < |ValueFlags(bag)| && ValueFlags(bag)[Rank(bag, j, false)] == ValueFlag(bag[j])
    decreases |bag|
  {
    if |bag| > 0 {
      var rest := bag[1..];
      ValueFlagsPlaced(rest);
      RankSplit(bag, |bag| - 1, false);
      forall j | 0 <= j < |bag| && !bag[j].1.Bool?
        ensures Rank(bag, j, false) < |ValueFlags(bag)| && ValueFlags(bag)[Rank(bag, j, false)] == ValueFlag(bag[j])
      {
        if j > 0 {
          ValueFlagPlacedStep(bag, j);
        }
      }
    }
  }

  /** Entry `j > 0` keeps the place it has in the tail, shifted by the head's flag. */
  lemma ValueFlagPlacedStep(bag: Bag, j: nat)
    requires 0 < j < |bag| && !bag[j].1.Bool?
    requires Rank(bag[1..], j - 1, false) < |ValueFlags(bag[1..])|
    requires ValueFlags(bag[1..])[Rank(bag[1..], j - 1, false)] == ValueFlag(bag[1..][j - 1])
    ensures Rank(bag, j, false) < |ValueFlags(bag)| && ValueFlags(bag)[Rank(bag, j, false)] == ValueFlag(bag[j])
  {
    RankSplit(bag, j - 1, false);
    var head: seq<string> := if bag[0].1.Bool? then [] else [ValueFlag(bag[0])];
    assert ValueFlags(bag) == head + ValueFlags(bag[1..]);
    assert bag[1..][j - 1] == bag[j];
  }

  /** The same for the bool entries and the toggle list. */
  lemma {:induction false} ToggleFlagsPlaced(bag: Bag)
    ensures |ToggleFlags(bag)| == Rank(bag, |bag|, true)
    ensures forall j :: 0 <= j < |bag| && bag[j].1.Bool? ==>
              Rank(bag, j, true) < |ToggleFlags(bag)| && ToggleFlags(bag)[Rank(bag, j, true)] == ToggleFlag(bag[j])
    decreases |bag|
  {
    if |bag| > 0 {
      var rest := bag[1..];
      ToggleFlagsPlaced(rest);
      RankSplit(bag, |bag| - 1, true);
      forall j | 0 <= j < |bag| && bag[j].1.Bool?
        ensures Rank(bag, j, true) < |ToggleFlags(bag)| && ToggleFlags(bag)[Rank(bag, j, true)] == ToggleFlag(bag[j])
      {
        if j > 0 {
          ToggleFlagPlacedStep(bag, j);
        }
      }
    }
  }

  /** Entry `j > 0` keeps the place it has in the tail, shifted by the head's flag. */
  lemma ToggleFlagPlacedStep(bag: Bag, j: nat)
    requires 0 < j < |bag| && bag[j].1.Bool?
    requires Rank(bag[1..], j - 1, true) < |ToggleFlags(bag[1..])|
    requires ToggleFlags(bag[1..])[Rank(bag[1..], j - 1, true)] == ToggleFlag(bag[1..][j - 1])
    ensures Rank(bag, j, true) < |ToggleFlags(bag)| && ToggleFlags(bag)[Rank(bag, j, true)] == ToggleFlag(bag[j])
  {
    RankSplit(bag, j - 1, true);
    var head: seq<string> := if bag[0].1.Bool? then [ToggleFlag(bag[0])] else [];
    assert ToggleFlags(bag) == head + ToggleFlags(bag[1..]);
    assert bag[1..][j - 1] == bag[j];
  }

  /** Later entries of a kind get strictly later positions. */
  lemma RankStrict(bag: Bag, i: nat, j: nat, bools: bool)
    requires i < j <= |bag| && bag[i].1.Bool? == bools
    ensures Rank(bag, i, bools) < Rank(bag, j, bools)
  {
    RankMonotone(bag, i + 1, j, bools);
  }

  /** Every entry is rendered exactly once: as a value flag or as a toggle. */
  lemma {:induction false} RanksCover(bag: Bag, j: nat)
    requires j <= |bag|
    ensures Rank(bag, j, false) + Rank(bag, j, true) == j
    decreases j
  {
    if j > 0 {
      RanksCover(bag, j - 1);
    }
  }

  /** `Without` keeps every other entry, in order, and removes the name. */
  lemma {:induction false} WithoutKeeps(bag: Bag, key: string)
    ensures Lookup(Without(bag, key), key).None?
    ensures forall k :: k != key ==> Lookup(Without(bag, key), k) == Lookup(bag, k)
    decreases |bag|
  {
    if |bag| > 0 {
      WithoutKeeps(bag[1..], key);
      if bag[0].0 != key {
        assert ([bag[0]] + Without(bag[1..], key))[1..] == Without(bag[1..], key);
      }
    }
  }

  /**
   * The removal is the order-preserving filter: it distributes over
   * concatenation, keeps a single entry with another name and drops one
   * with that name.
   */
  lemma {:induction false} WithoutConcat(a: Bag, b: Bag, key: string)
    ensures Without(a + b, key) == Without(a, key) + Without(b, key)
    decreases |a|
  {
    if |a| == 0 {
      assert a + b == b;
    } else {
      var ab := a + b;
      assert ab[1..] == a[1..] + b;
      assert ab[0] == a[0];
      WithoutConcat(a[1..], b, key);
      if a[0].0 != key {
        assert [a[0]] + (Without(a[1..], key) + Without(b, key)) == ([a[0]] + Without(a[1..], key)) + Without(b, key);
      }
    }
  }

  lemma WithoutSingle(p: (string, Value), key: string)
    ensures Without([p], key) == if p.0 == key then [] else [p]
  {
    assert [p][1..] == [];
  }

  /** Every entry left after a removal is an entry of the original bag. */
  lemma {:induction false} WithoutFrom(bag: Bag, key: string)
    ensures forall j :: 0 <= j < |Without(bag, key)| ==>
              exists i :: 0 <= i < |bag| && Without(bag, key)[j] == bag[i]
    decreases |bag|
  {
    if |bag| > 0 {
      WithoutFrom(bag[1..], key);
      var rest, w := Without(bag[1..], key), Without(bag, key);
      forall j | 0 <= j < |w| ensures exists i :: 0 <= i < |bag| && w[j] == bag[i] {
        if bag[0].0 == key {
          assert w == rest;
          var i :| 0 <= i < |bag[1..]| && rest[j] == bag[1..][i];
          assert bag[i + 1] == bag[1..][i];
        } else if j == 0 {
          assert w[0] == bag[0];
        } else {
          assert w == [bag[0]] + rest;
          assert w[j] == rest[j - 1];
          var i :| 0 <= i < |bag[1..]| && rest[j - 1] == bag[1..][i];
          assert bag[i + 1] == bag[1..][i];
        }
      }
      assert forall j :: 0 <= j < |w| ==> exists i :: 0 <= i < |bag| && w[j] == bag[i];
    } else {
      assert Without(bag, key) == [];
    }
  }

  /** No toggle or value flag is produced for a name absent from the bag. */
  lemma {:induction false} FlagsFromEntries(bag: Bag)
    ensures forall f :: f in ValueFlags(bag) ==> exists j :: 0 <= j < |bag| && !bag[j].1.Bool? && f == ValueFlag(bag[j])
    ensures forall f :: f in ToggleFlags(bag) ==> exists j :: 0 <= j < |bag| && bag[j].1.Bool? && f == ToggleFlag(bag[j])
    decreases |bag|
  {
    if |bag| > 0 {
      FlagsFromEntries(bag[1..]);
      forall f | f in ValueFlags(bag[1..])
        ensures exists j :: 0 <= j < |bag| && !bag[j].1.Bool? && f == ValueFlag(bag[j])
      {
        var j :| 0 <= j < |bag[1..]| && !bag[1..][j].1.Bool? && f == ValueFlag(bag[1..][j]);
        assert bag[j + 1] == bag[1..][j];
      }
      forall f | f in ToggleFlags(bag[1..])
        ensures exists j :: 0 <= j < |bag| && bag[j].1.Bool? && f == ToggleFlag(bag[j])
      {
        var j :| 0 <= j < |bag[1..]| && bag[1..][j].1.Bool? && f == ToggleFlag(bag[1..][j]);
        assert bag[j + 1] == bag[1..][j];
      }
    }
  }

  // ---------------------------------------------------------------------
  // The command list as lines of the manifest

  /** One item of the YAML command list. */
  function Item(flag: string): string
  {
    "    - " + flag
  }

  /** One item per flag. */
  function Items(flags: seq<string>): (r: seq<string>)
    ensures |r| == |flags|
  {
    seq(|flags|, i requires 0 <= i < |flags| => Item(flags[i]))
  }

  /**
   * The command lines after `--disable-log-requests`: one item per value
   * flag (a lone empty item when there are none), then one item per toggle.
   */
  function CommandLines(bag: Bag): seq<string>
  {
    ValueLines(bag) + Items(ToggleFlags(bag))
  }

  /** The items of the value flags, or a lone empty item when there are none. */
  function ValueLines(bag: Bag): (r: seq<string>)
    ensures |r| == ValueLineCount(bag)
  {
    var vf := ValueFlags(bag);
    if |vf| == 0 then [Item("")] else Items(vf)
  }

  /** The number of command lines the value flags take. */
  function ValueLineCount(bag: Bag): nat
  {
    if |ValueFlags(bag)| == 0 then 1 else |ValueFlags(bag)|
  }

  lemma ItemsText(flags: seq<string>)
    requires |flags| > 0
    ensures "    - " + JoinWith(flags, ItemBreak) == JoinLines(Items(flags))
  {
    ItemBreakSplit();
    JoinPrefixed(flags, "    - ");
    ItemsIndented(flags);
  }

  lemma ItemBreakSplit()
    ensures ItemBreak == "\n" + "    - "
  {
  }

  lemma ItemsIndented(flags: seq<string>)
    ensures Items(flags) == Indented(flags, "    - ")
  {
  }

  lemma ToggleFlagsNonEmpty(bag: Bag)
    requires |ToggleFlags(bag)| > 0
    ensures |JoinWith(ToggleFlags(bag), ItemBreak)| > 0
  {
    FlagsFromEntries(bag);
    assert ToggleFlags(bag)[0] in ToggleFlags(bag);
    JoinNonEmpty(ToggleFlags(bag), ItemBreak);
  }

  lemma ValueLinesText(bag: Bag)
    ensures "    - " + JoinWith(ValueFlags(bag), ItemBreak) == JoinLines(ValueLines(bag))
  {
    if |ValueFlags(bag)| > 0 {
      ItemsText(ValueFlags(bag));
    }
  }

  /** The rendered text of line 98 is exactly the command lines: each flag on an item of its own. */
  lemma CommandTextLines(bag: Bag)
    ensures "    - " + CommandText(bag) == JoinLines(CommandLines(bag))
  {
    var vf, tg := ValueFlags(bag), ToggleFlags(bag);
    ValueLinesText(bag);
    if |tg| > 0 {
      ToggleFlagsNonEmpty(bag);
      ItemsText(tg);
      JoinAppend(ValueLines(bag), Items(tg), "\n");
      ItemBreakSplit();
      Glue("    - ", JoinWith(vf, ItemBreak), "\n", JoinWith(tg, ItemBreak));
    } else {
      assert CommandLines(bag) == ValueLines(bag);
    }
  }

  /**
   * Flag order: the flag of the non-bool entry `j` is on command line
   * `Rank(bag, j, false)` and the flag of the bool entry `j` on line
   * `ValueLineCount(bag) + Rank(bag, j, true)`, so every value flag precedes
   * every toggle and each kind keeps insertion order.
   */
  lemma CommandLinesOrder(bag: Bag)
    ensures |CommandLines(bag)| == ValueLineCount(bag) + |ToggleFlags(bag)|
    ensures forall j :: 0 <= j < |bag| && !bag[j].1.Bool? ==>
              Rank(bag, j, false) < |ValueFlags(bag)| <= ValueLineCount(bag) &&
              CommandLines(bag)[Rank(bag, j, false)] == Item(ValueFlag(bag[j]))
    ensures forall j :: 0 <= j < |bag| && bag[j].1.Bool? ==>
              ValueLineCount(bag) + Rank(bag, j, true) < |CommandLines(bag)| &&
              CommandLines(bag)[ValueLineCount(bag) + Rank(bag, j, true)] == Item(ToggleFlag(bag[j]))
  {
    ValueItemsPlaced(bag);
    ToggleItemsPlaced(bag);
  }

  lemma ValueItemsPlaced(bag: Bag)
    ensures forall j :: 0 <= j < |bag| && !bag[j].1.Bool? ==>
              Rank(bag, j, false) < |ValueFlags(bag)| <= ValueLineCount(bag) &&
              CommandLines(bag)[Rank(bag, j, false)] == Item(ValueFlag(bag[j]))
  {
    var cl, vf := CommandLines(bag), ValueFlags(bag);
    ValueFlagsPlaced(bag);
    ValueLinesIndex(bag);
    forall j | 0 <= j < |bag| && !bag[j].1.Bool?
      ensures Rank(bag, j, false) < |vf| && cl[Rank(bag, j, false)] == Item(ValueFlag(bag[j]))
    {
      var r := Rank(bag, j, false);
      assert cl[r] == Item(vf[r]);
    }
  }

  lemma ToggleItemsPlaced(bag: Bag)
    ensures |CommandLines(bag)| == ValueLineCount(bag) + |ToggleFlags(bag)|
    ensures forall j :: 0 <= j < |bag| && bag[j].1.Bool? ==>
              ValueLineCount(bag) + Rank(bag, j, true) < |CommandLines(bag)| &&
              CommandLines(bag)[ValueLineCount(bag) + Rank(bag, j, true)] == Item(ToggleFlag(bag[j]))
  {
    var cl, n, tg := CommandLines(bag), ValueLineCount(bag), ToggleFlags(bag);
    ToggleFlagsPlaced(bag);
    assert cl == ValueLines(bag) + Items(tg);
    forall j | 0 <= j < |bag| && bag[j].1.Bool?
      ensures n + Rank(bag, j, true) < |cl| && cl[n + Rank(bag, j, true)] == Item(ToggleFlag(bag[j]))
    {
      ToggleLineAt(bag, Rank(bag, j, true));
    }
  }

  /** The value flags' items open the command lines. */
  lemma ValueLinesIndex(bag: Bag)
    ensures forall r :: 0 <= r < |ValueFlags(bag)| ==> CommandLines(bag)[r] == Item(ValueFlags(bag)[r])
  {
  }

  /** The item of toggle `r` follows the value lines. */
  lemma ToggleLineAt(bag: Bag, r: nat)
    requires r < |ToggleFlags(bag)|
    ensures ValueLineCount(bag) + r < |CommandLines(bag)|
    ensures CommandLines(bag)[ValueLineCount(bag) + r] == Item(ToggleFlags(bag)[r])
  {
    var vl, tl := ValueLines(bag), Items(ToggleFlags(bag));
    assert CommandLines(bag) == vl + tl;
    assert (vl + tl)[|vl| + r] == tl[r];
  }

  lemma HyphenateAvoids(k: string, c: char)
    requires c !in k && c != '-'
    ensures c !in Hyphenate(k)
  {
  }

  /** A character in no name and no value text, and not part of the item syntax, is on no command line. */
  lemma CommandLinesAvoid(bag: Bag, c: char)
    requires c != ' ' && c != '-' && c != '='
    requires forall j :: 0 <= j < |bag| ==> c !in bag[j].0 && c !in ValueText(bag[j].1)
    ensures forall k :: 0 <= k < |CommandLines(bag)| ==> c !in CommandLines(bag)[k]
  {
    var vl, tl := ValueLines(bag), Items(ToggleFlags(bag));
    ValueLinesAvoid(bag, c);
    ToggleLinesAvoid(bag, c);
    assert CommandLines(bag) == vl + tl;
    forall k | 0 <= k < |vl + tl| ensures c !in (vl + tl)[k] {
      if k < |vl| {
        assert (vl + tl)[k] == vl[k];
      } else {
        assert (vl + tl)[k] == tl[k - |vl|];
      }
    }
  }

  lemma ValueLinesAvoid(bag: Bag, c: char)
    requires c != ' ' && c != '-' && c != '='
    requires forall j :: 0 <= j < |bag| ==> c !in bag[j].0 && c !in ValueText(bag[j].1)
    ensures forall k :: 0 <= k < |ValueLines(bag)| ==> c !in ValueLines(bag)[k]
  {
    FlagsFromEntries(bag);
    var vf := ValueFlags(bag);
    forall i | 0 <= i < |vf| ensures c !in Items(vf)[i] {
      assert vf[i] in vf;
      var j :| 0 <= j < |bag| && !bag[j].1.Bool? && vf[i] == ValueFlag(bag[j]);
      HyphenateAvoids(bag[j].0, c);
    }
  }

  lemma ToggleLinesAvoid(bag: Bag, c: char)
    requires c != ' ' && c != '-'
    requires forall j :: 0 <= j < |bag| ==> c !in bag[j].0
    ensures forall k :: 0 <= k < |ToggleFlags(bag)| ==> c !in Items(ToggleFlags(bag))[k]
  {
    FlagsFromEntries(bag);
    var tg := ToggleFlags(bag);
    forall i | 0 <= i < |tg| ensures c !in Items(tg)[i] {
      assert tg[i] in tg;
      var j :| 0 <= j < |bag| && bag[j].1.Bool? && tg[i] == ToggleFlag(bag[j]);
      HyphenateAvoids(bag[j].0, c);
    }
  }

  /** Every command line is an item: it starts with four spaces and a dash. */
  lemma CommandLinesItems(bag: Bag)
    ensures forall k :: 0 <= k < |CommandLines(bag)| ==> StartsWith(CommandLines(bag)[k], "    - ")
  {
  }

  /** Without hyphens of their own, names that hyphenate alike are alike. */
  lemma HyphenateOnly(k: string, name: string)
    requires '-' !in k && '-' !in name && Hyphenate(k) == Hyphenate(name)
    ensures k == name
  {
    var hk, hn := Hyphenate(k), Hyphenate(name);
    forall i | 0 <= i < |k| ensures k[i] == name[i] {
      assert k[i] in k && name[i] in name;
      assert hk[i] == hn[i];
    }
  }

  /** A flag `--a=...` starts with `--b=` only when `a` is `b`, for `=`-free names. */
  lemma SameFlagName(a: string, b: string, v: string)
    requires '=' !in a && '=' !in b
    requires StartsWith("--" + a + "=" + v, "--" + b + "=")
    ensures a == b
  {
    var f, p := "--" + a + "=" + v, "--" + b + "=";
    var m := if |a| < |b| then |a| else |b|;
    SameCharAt(f, p, 2 + m);
    if |a| == |b| {
      forall i | 0 <= i < |a| ensures a[i] == b[i] {
        SameCharAt(f, p, 2 + i);
      }
    }
  }

  lemma SameCharAt(f: string, p: string, i: nat)
    requires StartsWith(f, p) && i < |p|
    ensures f[i] == p[i]
  {
    assert f[..|p|][i] == f[i];
  }
}
