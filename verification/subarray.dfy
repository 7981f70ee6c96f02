/** `subarray.py`: flattening nested lists into an accumulator kept on the
    `Solution` instance, and printing the most frequent elements. */
module Subarray {
  import opened Wrappers
  import opened Py
  import opened Utils

  /** An element of a nested list: a number, or a list of further elements. */
  datatype Item = Leaf(value: int) | Nested(items: seq<Item>)

  function ItemSize(it: Item): (n: nat)
    ensures n >= 1
  {
    match it
    case Leaf(_) => 1
    case Nested(xs) => 1 + Size(xs)
  }

  function Size(xs: seq<Item>): nat {
    if |xs| == 0 then 0 else ItemSize(xs[0]) + Size(xs[1..])
  }

  /** Depth-first, left-to-right flattening: the reference the accumulating
      loop is checked against. */
  function Flatten(xs: seq<Item>): seq<int>
    decreases Size(xs), 1
  {
    if |xs| == 0 then [] else FlattenItem(xs[0]) + Flatten(xs[1..])
  }

  function FlattenItem(it: Item): seq<int>
    decreases ItemSize(it), 0
  {
    match it
    case Leaf(v) => [v]
    case Nested(ys) => Flatten(ys)
  }

  /** The `modify_array` loop: each number is appended to the accumulator
      `acc`, each list is walked recursively into the same accumulator. */
  function Accumulate(acc: seq<int>, arr: seq<Item>): (r: seq<int>)
    ensures r == acc + Flatten(arr)
    decreases Size(arr)
  {
    if |arr| == 0 then acc
    else
      assert Size(arr) == ItemSize(arr[0]) + Size(arr[1..]);
      assert Flatten(arr) == FlattenItem(arr[0]) + Flatten(arr[1..]);
      match arr[0]
      case Leaf(v) =>
        assert acc + Flatten(arr) == (acc + [v]) + Flatten(arr[1..]);
        Accumulate(acc + [v], arr[1..])
      case Nested(ys) =>
        assert acc + Flatten(arr) == (acc + Flatten(ys)) + Flatten(arr[1..]);
        Accumulate(Accumulate(acc, ys), arr[1..])
  }

  /** A `Solution` instance: its accumulator `mod_array`. */
  datatype Solution = Solution(modArray: seq<int>)

  /** `Solution.modify_array`: the instance's accumulator grows by the
      flattened input and is also the result, so earlier calls' elements come
      first. */
  function ModifyArray(sol: Solution, arr: seq<Item>): (r: (Solution, seq<int>))
    ensures r.1 == sol.modArray + Flatten(arr)
    ensures r.0.modArray == r.1
  {
    var all := Accumulate(sol.modArray, arr);
    (Solution(all), all)
  }

  /** Two calls on one instance: the second result repeats the first one's
      elements before its own. */
  lemma SecondCallRepeatsEarlierElements(a: seq<Item>, b: seq<Item>)
    ensures ModifyArray(ModifyArray(Solution([]), a).0, b).1 == Flatten(a) + Flatten(b)
  {
    var first := ModifyArray(Solution([]), a).0;
    assert first.modArray == Flatten(a) by {
      assert [] + Flatten(a) == Flatten(a);
    }
  }

  function Count(xs: seq<int>, v: int): nat {
    multiset(xs)[v]
  }

  /** `v` occurs at least as often as any element of `xs`. */
  predicate IsMode(xs: seq<int>, v: int) {
    forall w :: w in xs ==> Count(xs, w) <= Count(xs, v)
  }

  predicate StrictlySorted(s: seq<int>) {
    forall i, j :: 0 <= i < j < |s| ==> s[i] < s[j]
  }

  /** `x` put in its place in a strictly sorted sequence that lacks it. */
  function Insert(s: seq<int>, x: int): (r: seq<int>)
    requires StrictlySorted(s) && x !in s
    ensures StrictlySorted(r)
    ensures forall v :: v in r <==> v in s || v == x
    ensures |r| == |s| + 1
  {
    if |s| == 0 then [x]
    else if x < s[0] then [x] + s
    else
      var rest := Insert(s[1..], x);
      assert forall j :: 0 <= j < |rest| ==> s[0] < rest[j] by {
        forall j | 0 <= j < |rest|
          ensures s[0] < rest[j]
        {
          assert rest[j] in rest;
          if rest[j] != x {
            var k :| 0 <= k < |s[1..]| && s[1..][k] == rest[j];
            assert s[k + 1] == rest[j];
          }
        }
      }
      [s[0]] + rest
  }

  /** The most frequent elements of a non-empty list, ascending: the part of
      `count_elements` between `Counter` and `sort`. */
  method MostCommon(xs: seq<int>) returns (modes: seq<int>)
    requires |xs| > 0
    ensures StrictlySorted(modes)
    ensures forall v :: v in modes <==> v in xs && IsMode(xs, v)
    ensures |modes| > 0
  {
    var best := HighestCount(xs);
    modes := ElementsWithCount(xs, best);
    var j :| 0 <= j < |xs| && Count(xs, xs[j]) == best;
    assert xs[j] in modes;
  }

  /** The count of the most frequent element: `most_com[0][1]`. */
  method HighestCount(xs: seq<int>) returns (best: nat)
    requires |xs| > 0
    ensures forall w :: w in xs ==> Count(xs, w) <= best
    ensures exists j :: 0 <= j < |xs| && Count(xs, xs[j]) == best
  {
    best := Count(xs, xs[0]);
    var i := 1;
    while i < |xs|
      invariant 1 <= i <= |xs|
      invariant forall j :: 0 <= j < i ==> Count(xs, xs[j]) <= best
      invariant exists j :: 0 <= j < i && Count(xs, xs[j]) == best
    {
      if Count(xs, xs[i]) > best {
        best := Count(xs, xs[i]);
      }
      i := i + 1;
    }
  }

  /** The distinct elements of `xs` occurring exactly `n` times, ascending. */
  method ElementsWithCount(xs: seq<int>, n: nat) returns (found: seq<int>)
    ensures StrictlySorted(found)
    ensures forall v :: v in found <==> v in xs && Count(xs, v) == n
  {
    found := [];
    var i := 0;
    while i < |xs|
      invariant 0 <= i <= |xs|
      invariant StrictlySorted(found)
      invariant forall v :: v in found <==> v in xs[..i] && Count(xs, v) == n
    {
      if Count(xs, xs[i]) == n && xs[i] !in found {
        found := Insert(found, xs[i]);
      }
      assert xs[..i + 1] == xs[..i] + [xs[i]];
      i := i + 1;
    }
    assert xs[..i] == xs;
  }

  /** `" ".join(map(str, xs))`. */
  function JoinInts(xs: seq<int>): string {
    if |xs| == 0 then ""
    else if |xs| == 1 then ShowInt(xs[0])
    else ShowInt(xs[0]) + " " + JoinInts(xs[1..])
  }

  /** Splits a text at every space. */
  function SplitSpaces(s: string): (r: seq<string>)
    ensures |r| > 0
    decreases |s|
  {
    if ' ' !in s then [s]
    else
      var i := FirstSpace(s);
      [s[..i]] + SplitSpaces(s[i + 1..])
  }

  function FirstSpace(s: string): (i: nat)
    requires ' ' in s
    ensures i < |s| && s[i] == ' ' && ' ' !in s[..i]
  {
    if s[0] == ' ' then 0
    else
      assert ' ' in s[1..] by {
        var k :| 0 <= k < |s| && s[k] == ' ';
        assert s[1..][k - 1] == ' ';
      }
      var j := FirstSpace(s[1..]);
      assert s[..j + 1] == [s[0]] + s[1..][..j];
      j + 1
  }

  lemma {:induction false} SplitJoinInts(xs: seq<int>)
    requires |xs| > 0
    ensures |SplitSpaces(JoinInts(xs))| == |xs|
    ensures forall i :: 0 <= i < |xs| ==> SplitSpaces(JoinInts(xs))[i] == ShowInt(xs[i])
    decreases |xs|
  {
    ShowIntHasNoSpace(xs[0]);
    if |xs| > 1 {
      SplitJoinInts(xs[1..]);
      assert JoinInts(xs) == ShowInt(xs[0]) + " " + JoinInts(xs[1..]);
      SplitAtFirstSpace(ShowInt(xs[0]), JoinInts(xs[1..]));
      var parts := SplitSpaces(JoinInts(xs));
      assert parts == [ShowInt(xs[0])] + SplitSpaces(JoinInts(xs[1..]));
      forall i | 0 < i < |xs|
        ensures parts[i] == ShowInt(xs[i])
      {
        assert parts[i] == SplitSpaces(JoinInts(xs[1..]))[i - 1];
        assert xs[1..][i - 1] == xs[i];
      }
    }
  }

  /** Splitting a word, a space and a rest gives the word, then the rest's pieces. */
  lemma SplitAtFirstSpace(w: string, rest: string)
    requires ' ' !in w
    ensures SplitSpaces(w + " " + rest) == [w] + SplitSpaces(rest)
  {
    var s := w + " " + rest;
    assert s[|w|] == ' ';
    assert FirstSpace(s) == |w|;
    assert s[..|w|] == w;
    assert s[|w| + 1..] == rest;
  }

  /** The printed answer reads back as the numbers it prints: splitting at
      spaces and parsing each word gives the list again. */
  lemma JoinIntsReadsBack(xs: seq<int>)
    requires |xs| > 0
    ensures |SplitSpaces(JoinInts(xs))| == |xs|
    ensures forall i :: 0 <= i < |xs| ==> ParseInt(SplitSpaces(JoinInts(xs))[i]) == Some(xs[i])
  {
    SplitJoinInts(xs);
    forall i | 0 <= i < |xs| {
      ParseShowInt(xs[i]);
    }
  }

  /** `Solution.count_elements`: flattens into the instance's accumulator,
      then prints the most frequent accumulated elements in ascending order,
      space-separated. With nothing accumulated, `most_com[0]` raises
      `IndexError`. */
  method CountElements(sol: Solution, arr: seq<Item>) returns (sol': Solution, r: Result<string, Exception>)
    ensures sol'.modArray == sol.modArray + Flatten(arr)
    ensures r.Err? <==> |sol'.modArray| == 0
    ensures r.Err? ==> r.error == IndexError
    ensures r.Ok? ==> exists modes ::
      && StrictlySorted(modes)
      && (forall v :: v in modes <==> v in sol'.modArray && IsMode(sol'.modArray, v))
      && r.value == JoinInts(modes)
  {
    var res := ModifyArray(sol, arr);
    sol' := res.0;
    if |res.1| == 0 {
      r := Err(IndexError);
    } else {
      var modes := MostCommon(res.1);
      r := Ok(JoinInts(modes));
    }
  }

  /** Two strictly sorted lists with the same elements are the same list. */
  lemma {:induction false} StrictlySortedUnique(a: seq<int>, b: seq<int>)
    requires StrictlySorted(a) && StrictlySorted(b)
    requires forall v :: v in a <==> v in b
    ensures a == b
    decreases |a|
  {
    if |a| > 0 {
      assert a[0] in a;
    }
    if |b| > 0 {
      assert b[0] in b;
    }
    if |a| > 0 && |b| > 0 {
      assert a[0] == b[0] by {
        assert b[0] in a && a[0] in b;
      }
      forall v
        ensures v in a[1..] <==> v in b[1..]
      {
        if v in a[1..] {
          var k :| 1 <= k < |a| && a[k] == v;
          assert v != a[0];
          assert v in b;
        }
        if v in b[1..] {
          var k :| 1 <= k < |b| && b[k] == v;
          assert v != b[0];
          assert v in a;
        }
      }
      StrictlySortedUnique(a[1..], b[1..]);
      assert a == [a[0]] + a[1..] && b == [b[0]] + b[1..];
    }
  }

  /** When no element repeats, every element is a most frequent one, so all
      of them are printed, in ascending order. */
  lemma DistinctElementsAreAllModes(xs: seq<int>, modes: seq<int>)
    requires forall i, j :: 0 <= i < j < |xs| ==> xs[i] != xs[j]
    requires StrictlySorted(modes)
    requires forall v :: v in modes <==> v in xs && IsMode(xs, v)
    ensures forall v :: v in modes <==> v in xs
  {
    forall v | v in xs
      ensures Count(xs, v) == 1
    {
      DistinctCountOne(xs, v);
    }
  }

  lemma {:induction false} DistinctCountOne(xs: seq<int>, v: int)
    requires forall i, j :: 0 <= i < j < |xs| ==> xs[i] != xs[j]
    requires v in xs
    ensures Count(xs, v) == 1
    decreases |xs|
  {
    assert xs == [xs[0]] + xs[1..];
    assert multiset(xs) == multiset{xs[0]} + multiset(xs[1..]);
    if xs[0] == v {
      assert v !in xs[1..] by {
        if v in xs[1..] {
          var k :| 1 <= k < |xs| && xs[k] == v;
        }
      }
      assert multiset(xs[1..])[v] == 0;
    } else {
      DistinctCountOne(xs[1..], v);
    }
  }

  /** The script's own call, `count_elements([0, 10, 2, 5, -999999999])` on a
      fresh instance: no element repeats, so every one is printed, in
      ascending order. */
  lemma ScriptOutput(modes: seq<int>)
    requires StrictlySorted(modes)
    requires forall v :: v in modes <==> v in [0, 10, 2, 5, -999999999] && IsMode([0, 10, 2, 5, -999999999], v)
    ensures modes == [-999999999, 0, 2, 5, 10]
    ensures JoinInts(modes) == "-999999999 0 2 5 10"
  {
    var xs := [0, 10, 2, 5, -999999999];
    DistinctElementsAreAllModes(xs, modes);
    StrictlySortedUnique(modes, [-999999999, 0, 2, 5, 10]);
    ScriptText();
  }

  lemma ScriptText()
    ensures JoinInts([-999999999, 0, 2, 5, 10]) == "-999999999 0 2 5 10"
  {
    SmallTail();
    Nines();
    JoinIntsCons(-999999999, [0, 2, 5, 10]);
  }

  lemma SmallTail()
    ensures JoinInts([0, 2, 5, 10]) == "0 2 5 10"
  {
    assert ShowNat(10) == "10";
    assert JoinInts([10]) == "10";
    JoinIntsCons(5, [10]);
    JoinIntsCons(2, [5, 10]);
    JoinIntsCons(0, [2, 5, 10]);
  }

  lemma JoinIntsCons(x: int, xs: seq<int>)
    requires |xs| > 0
    ensures JoinInts([x] + xs) == ShowInt(x) + " " + JoinInts(xs)
  {
    assert ([x] + xs)[1..] == xs;
  }

  lemma Nines()
    ensures ShowInt(-999999999) == "-999999999"
  {
    assert ShowNat(9) == "9";
    assert ShowNat(99) == "99";
    assert ShowNat(999) == "999";
    assert ShowNat(9999) == "9999";
    assert ShowNat(99999) == "99999";
    assert ShowNat(999999) == "999999";
    assert ShowNat(9999999) == "9999999";
    assert ShowNat(99999999) == "99999999";
    assert ShowNat(999999999) == "999999999";
  }
}
