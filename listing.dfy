/** A folder's entries as the modelled code sees them: `os.listdir` gives the
    names in no particular order, and the callers sort them with Python's
    string order. A folder is a `set<string>`; reading it sorted gives the one
    strictly increasing sequence of its names. */
module Listing {
  import opened Text

  function Elems(s: seq<string>): set<string>
  {
    set x | x in s
  }

  predicate StrictlySorted(s: seq<string>)
  {
    forall i, j :: 0 <= i < j < |s| ==> LexLess(s[i], s[j])
  }

  /** The least name of a non-empty folder, found by one pass over it. */
  method LeastName(folder: set<string>) returns (least: string)
    requires folder != {}
    ensures least in folder
    ensures forall x :: x in folder && x != least ==> LexLess(least, x)
  {
    least :| least in folder;
    var unseen := folder - {least};
    while unseen != {}
      invariant unseen <= folder && least in folder && least !in unseen
      invariant forall x :: x in folder - unseen && x != least ==> LexLess(least, x)
      decreases |unseen|
    {
      var x :| x in unseen;
      LexLessTotal(x, least);
      if LexLess(x, least) {
        forall y | y in folder - unseen && y != x
          ensures LexLess(x, y)
        {
          if y != least {
            LexLessTransitive(x, least, y);
          }
        }
        least := x;
      }
      unseen := unseen - {x};
    }
  }

  /** Every non-empty folder has a least name. */
  lemma {:induction false} LeastExists(folder: set<string>)
    requires folder != {}
    ensures exists m :: m in folder && forall x :: x in folder && x != m ==> LexLess(m, x)
    decreases |folder|
  {
    var y :| y in folder;
    if folder - {y} != {} {
      LeastExists(folder - {y});
      var m :| m in folder - {y} && forall x :: x in folder - {y} && x != m ==> LexLess(m, x);
      LexLessTotal(y, m);
      if LexLess(y, m) {
        forall x | x in folder && x != y
          ensures LexLess(y, x)
        {
          if x != m {
            LexLessTransitive(y, m, x);
          }
        }
        assert y in folder && forall x :: x in folder && x != y ==> LexLess(y, x);
      } else {
        assert LexLess(m, y);
        assert m in folder && forall x :: x in folder && x != m ==> LexLess(m, x);
      }
    } else {
      assert folder == {y};
      assert y in folder && forall x :: x in folder && x != y ==> LexLess(y, x);
    }
  }

  /** The names of a folder in increasing order: what reading it sorted gives. */
  ghost function SortedOf(folder: set<string>): (names: seq<string>)
    ensures Elems(names) == folder && |names| == |folder|
  {
    SortedOntoFacts(folder, []);
    SortedOnto(folder, [])
  }

  /** `sorted` followed by the names of `folder`, the least remaining name
      taken each time. */
  ghost function SortedOnto(folder: set<string>, sorted: seq<string>): seq<string>
    decreases |folder|
  {
    if folder == {} then sorted
    else
      var least := Least(folder);
      SortedOnto(folder - {least}, sorted + [least])
  }

  /** Taking the least remaining name each time after a sorted prefix below
      every remaining name gives a sorted list of all of them, each once. */
  lemma {:induction false} SortedOntoFacts(folder: set<string>, sorted: seq<string>)
    requires StrictlySorted(sorted)
    requires forall i, x :: 0 <= i < |sorted| && x in folder ==> LexLess(sorted[i], x)
    ensures StrictlySorted(SortedOnto(folder, sorted))
    ensures Elems(SortedOnto(folder, sorted)) == Elems(sorted) + folder
    ensures |SortedOnto(folder, sorted)| == |sorted| + |folder|
    decreases |folder|
  {
    if folder != {} {
      var least := Least(folder);
      var next := sorted + [least];
      forall i, j | 0 <= i < j < |next| ensures LexLess(next[i], next[j]) {
        if j == |sorted| {
          assert next[i] == sorted[i] && next[j] == least;
        }
      }
      forall i, x | 0 <= i < |next| && x in folder - {least} ensures LexLess(next[i], x) {
        if i == |sorted| {
          assert next[i] == least;
        } else {
          assert next[i] == sorted[i];
        }
      }
      assert Elems(next) == Elems(sorted) + {least};
      SortedOntoFacts(folder - {least}, next);
    }
  }

  /** That listing is in strictly increasing order. */
  lemma SortedOfSorted(folder: set<string>)
    ensures StrictlySorted(SortedOf(folder))
  {
    SortedOntoFacts(folder, []);
  }

  /** The least name of a non-empty folder. */
  ghost function Least(folder: set<string>): (least: string)
    requires folder != {}
    ensures least in folder
    ensures forall x :: x in folder && x != least ==> LexLess(least, x)
  {
    LeastExists(folder);
    var least :| least in folder && forall x :: x in folder && x != least ==> LexLess(least, x);
    least
  }

  /** `sorted(os.listdir(folder))`: repeatedly take the least remaining name. */
  method SortedListing(folder: set<string>) returns (names: seq<string>)
    ensures names == SortedOf(folder)
    ensures StrictlySorted(names) && Elems(names) == folder && |names| == |folder|
  {
    names := [];
    var rest := folder;
    while rest != {}
      invariant SortedOnto(rest, names) == SortedOf(folder)
      decreases |rest|
    {
      var least := LeastName(rest);
      LeastUnique(rest, least);
      names := names + [least];
      rest := rest - {least};
    }
    SortedOfSorted(folder);
  }

  /** A folder has only one least name. */
  lemma LeastUnique(folder: set<string>, m: string)
    requires m in folder && forall x :: x in folder && x != m ==> LexLess(m, x)
    ensures m == Least(folder)
  {
    var least := Least(folder);
    if m != least {
      LexLessAsymmetric(m, least);
    }
  }

  /** A strictly sorted sequence is determined by its set of elements, so
      re-reading an unchanged folder gives the same list. */
  lemma {:induction false} SortedUnique(a: seq<string>, b: seq<string>)
    requires StrictlySorted(a) && StrictlySorted(b) && Elems(a) == Elems(b)
    ensures a == b
    decreases |a|
  {
    if |a| > 0 && |b| > 0 {
      assert a[0] in Elems(b) && b[0] in Elems(a);
      if a[0] != b[0] {
        var i :| 0 <= i < |b| && b[i] == a[0];
        var j :| 0 <= j < |a| && a[j] == b[0];
        LexLessAsymmetric(a[0], b[0]);
        assert false;
      }
      forall x | x in Elems(a[1..]) ensures x in Elems(b[1..]) {
        var k :| 1 <= k < |a| && a[k] == x;
        LexLessIrreflexive(a[0]);
        assert x in Elems(b) && x != b[0];
      }
      forall x | x in Elems(b[1..]) ensures x in Elems(a[1..]) {
        var k :| 1 <= k < |b| && b[k] == x;
        LexLessIrreflexive(b[0]);
        assert x in Elems(a) && x != a[0];
      }
      SortedUnique(a[1..], b[1..]);
      assert a == [a[0]] + a[1..] && b == [b[0]] + b[1..];
    } else {
      EmptyElems(a);
      EmptyElems(b);
    }
  }

  lemma EmptyElems(s: seq<string>)
    ensures Elems(s) == {} <==> |s| == 0
  {
    if |s| > 0 {
      assert s[0] in Elems(s);
    }
  }

  /** Cutting a window out of a sorted list leaves it sorted. */
  lemma SortedWithout(s: seq<string>, low: int, high: int)
    requires StrictlySorted(s) && 0 <= low <= high <= |s|
    ensures StrictlySorted(s[..low] + s[high..])
  {
    var t := s[..low] + s[high..];
    forall i, j | 0 <= i < j < |t| ensures LexLess(t[i], t[j]) {
      var i' := if i < low then i else i + high - low;
      var j' := if j < low then j else j + high - low;
      assert t[i] == s[i'] && t[j] == s[j'];
    }
  }

  /** Removing a window's names from a sorted list's names leaves the names
      of the list without the window. */
  lemma ElemsWithout(s: seq<string>, low: int, high: int)
    requires StrictlySorted(s) && 0 <= low <= high <= |s|
    ensures Elems(s) - Elems(s[low..high]) == Elems(s[..low] + s[high..])
  {
    forall x | x in Elems(s) - Elems(s[low..high])
      ensures x in Elems(s[..low] + s[high..])
    {
      var k :| 0 <= k < |s| && s[k] == x;
      if k < low {
        assert (s[..low] + s[high..])[k] == x;
      } else if k >= high {
        assert (s[..low] + s[high..])[k - (high - low)] == x;
      }
    }
    forall x | x in Elems(s[..low] + s[high..])
      ensures x in Elems(s) - Elems(s[low..high])
    {
      var k :| 0 <= k < |s[..low] + s[high..]| && (s[..low] + s[high..])[k] == x;
      var k' := if k < low then k else k + (high - low);
      assert s[k'] == x;
      if x in Elems(s[low..high]) {
        var m :| 0 <= m < high - low && s[low..high][m] == x;
        SortedDistinct(s, if k' < low + m then k' else low + m, if k' < low + m then low + m else k');
      }
    }
  }

  lemma ElemsConcat(a: seq<string>, b: seq<string>)
    ensures Elems(a + b) == Elems(a) + Elems(b)
  {
    forall x | x in Elems(a + b) ensures x in Elems(a) + Elems(b) {
      var k :| 0 <= k < |a + b| && (a + b)[k] == x;
      if k >= |a| {
        assert b[k - |a|] == x;
      }
    }
    forall x | x in Elems(a) + Elems(b) ensures x in Elems(a + b) {
      if x in Elems(b) {
        var k :| 0 <= k < |b| && b[k] == x;
        assert (a + b)[|a| + k] == x;
      }
    }
  }

  lemma ElemsCons(s: seq<string>)
    requires |s| > 0
    ensures Elems(s) == {s[0]} + Elems(s[1..])
  {
    assert s == [s[0]] + s[1..];
  }

  /** The names of a strictly sorted list are distinct. */
  lemma SortedDistinct(s: seq<string>, i: int, j: int)
    requires StrictlySorted(s) && 0 <= i < j < |s|
    ensures s[i] != s[j]
  {
    LexLessIrreflexive(s[i]);
  }
}
