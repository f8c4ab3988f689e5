/** The in-place path normaliser of require.js. */
module TrimDots {

  // ---------- what a path means ----------

  // So many steps up, then down along names.
  datatype Path = Path(ups: nat, names: seq<string>)

  const HERE := Path(0, [])

  function Walk(p: Path, segment: string): Path {
    if segment == "." then p
    else if segment == ".." then
      if p.names == [] then Path(p.ups + 1, []) else Path(p.ups, p.names[..|p.names| - 1])
    else Path(p.ups, p.names + [segment])
  }

  function WalkAll(p: Path, ary: seq<string>): Path
    decreases ary
  {
    if ary == [] then p else WalkAll(Walk(p, ary[0]), ary[1..])
  }

  function Meaning(ary: seq<string>): Path { WalkAll(HERE, ary) }

  lemma {:induction false} WalkConcat(p: Path, a: seq<string>, b: seq<string>)
    ensures WalkAll(p, a + b) == WalkAll(WalkAll(p, a), b)
    decreases a
  {
    if a == [] {
      assert a + b == b;
    } else {
      assert (a + b)[1..] == a[1..] + b;
      WalkConcat(Walk(p, a[0]), a[1..], b);
    }
  }

  // ---------- what the loop computes ----------

  predicate BreaksAt(ary: seq<string>, i: nat) {
    i == 1 && i < |ary| && ary[1] == ".." && (ary[0] == ".." || (2 < |ary| && ary[2] == ".."))
  }

  /** The array the loop leaves when it goes on from index i. */
  function Trim(ary: seq<string>, i: nat): seq<string>
    requires i <= |ary|
    decreases |ary| - i
  {
    if i == |ary| || ary[i] == "" || BreaksAt(ary, i) then ary
    else if ary[i] == "." then Trim(ary[..i] + ary[i + 1..], i)
    else if ary[i] == ".." && i > 0 then Trim(ary[..i - 1] + ary[i + 1..], i - 1)
    else Trim(ary, i + 1)
  }

  class Segments {
    var ary: seq<string>

    method TrimDots()
      modifies this
      ensures ary == Trim(old(ary), 0)
    {
      var i := 0;
      while i < |ary| && ary[i] != ""
        invariant 0 <= i <= |ary| && Trim(ary, i) == Trim(old(ary), 0)
        decreases |ary| - i
      {
        if ary[i] == "." {
          ary := ary[..i] + ary[i + 1..];
          i := i - 1;
        } else if ary[i] == ".." {
          if i == 1 && ((2 < |ary| && ary[2] == "..") || ary[0] == "..") {
            break;
          } else if i > 0 {
            ary := ary[..i - 1] + ary[i + 1..];
            i := i - 2;
          }
        }
        i := i + 1;
      }
    }
  }

  // ---------- what is true of the result ----------

  // The first i segments are names, after at most one "..".
  predicate Normal(ary: seq<string>, i: nat) {
    i <= |ary| && forall j :: 0 <= j < i ==> ary[j] != "." && ary[j] != "" && (ary[j] == ".." ==> j == 0)
  }

  predicate StopsAt(ary: seq<string>, i: nat) {
    i == |ary| || (i < |ary| && ary[i] == "") || BreaksAt(ary, i)
  }

  lemma {:induction false} NormalWalk(p: Path, ary: seq<string>)
    decreases ary
    requires Normal(ary, |ary|) && (ary != [] && p != HERE ==> ary[0] != "..") && p.ups <= 1
    ensures WalkAll(p, ary) ==
      Path(if ary != [] && ary[0] == ".." then 1 else p.ups,
      p.names + (if ary != [] && ary[0] == ".." then ary[1..] else ary))
  {
    if ary != [] {
      var q := Walk(p, ary[0]);
      if |ary| > 1 { assert ary[1..][0] == ary[1]; }
      NormalWalk(q, ary[1..]);
    }
  }

  /** A normal prefix means itself: an optional step up, then its names. */
  lemma NormalMeaning(ary: seq<string>)
    requires Normal(ary, |ary|)
    ensures
      var p := Meaning(ary);
      && p.ups <= 1 && ary == (if p.ups == 1 then [".."] else []) + p.names
      && (p.ups == 1 <==> ary != [] && ary[0] == "..")
  {
    NormalWalk(HERE, ary);
    if ary != [] && ary[0] == ".." { assert ary == [".."] + ary[1..]; }
  }

  /** Wherever a path points, trimming keeps pointing there; and the loop ends in front of a normal prefix. */
  lemma {:induction false} TrimKeepsMeaning(ary: seq<string>, i: nat) returns (k: nat)
    requires Normal(ary, i)
    ensures Meaning(Trim(ary, i)) == Meaning(ary)
    ensures Normal(Trim(ary, i), k) && StopsAt(Trim(ary, i), k)
    decreases |ary| - i
  {
    hide Walk, WalkAll, Meaning;
    if StopsAt(ary, i) {
      k := i;
    } else if ary[i] == "." {
      DropDot(ary, i);
      k := TrimKeepsMeaning(ary[..i] + ary[i + 1..], i);
    } else if ary[i] == ".." && i > 0 {
      DropPair(ary, i);
      k := TrimKeepsMeaning(ary[..i - 1] + ary[i + 1..], i - 1);
    } else {
      k := TrimKeepsMeaning(ary, i + 1);
    }
  }

  lemma DownAndUp(p: Path, name: string)
    requires name != "." && name != ".."
    ensures WalkAll(p, [name, ".."]) == p
  {
    assert [name, ".."][1..] == [".."] && [".."][1..] == [];
  }

  // Dropping segments that lead nowhere keeps the meaning.
  lemma DropSegments(ary: seq<string>, i: nat, j: nat)
    requires i < j <= |ary|
    requires WalkAll(Meaning(ary[..i]), ary[i..j]) == Meaning(ary[..i])
    ensures Meaning(ary[..i] + ary[j..]) == Meaning(ary)
  {
    assert ary == ary[..i] + (ary[i..j] + ary[j..]);
    WalkConcat(HERE, ary[..i], ary[i..j] + ary[j..]);
    WalkConcat(Meaning(ary[..i]), ary[i..j], ary[j..]);
    WalkConcat(HERE, ary[..i], ary[j..]);
  }

  lemma DropDot(ary: seq<string>, i: nat)
    requires i < |ary| && ary[i] == "."
    ensures Meaning(ary[..i] + ary[i + 1..]) == Meaning(ary)
  {
    assert ary[i..i + 1] == [ary[i]] && [ary[i]][1..] == [];
    DropSegments(ary, i, i + 1);
  }

  lemma DropPair(ary: seq<string>, i: nat)
    requires 0 < i < |ary| && ary[i] == ".." && ary[i - 1] != "." && ary[i - 1] != ".."
    ensures Meaning(ary[..i - 1] + ary[i + 1..]) == Meaning(ary)
  {
    assert ary[i - 1..i + 1] == [ary[i - 1], ".."];
    DownAndUp(Meaning(ary[..i - 1]), ary[i - 1]);
    DropSegments(ary, i - 1, i + 1);
  }

  lemma MeaningNext(ary: seq<string>, i: nat)
    requires i < |ary|
    ensures Meaning(ary[..i + 1]) == Walk(Meaning(ary[..i]), ary[i])
  {
    assert ary[..i + 1] == ary[..i] + [ary[i]] && [ary[i]][1..] == [];
    WalkConcat(HERE, ary[..i], [ary[i]]);
  }

  lemma {:induction false} TrimStable(ary: seq<string>, i: nat, k: nat)
    requires Normal(ary, k) && StopsAt(ary, k) && i <= k
    ensures Trim(ary, i) == ary
    decreases k - i
  {
    if i < k { TrimStable(ary, i + 1, k); }
  }

  /** Trimming is idempotent. */
  lemma TrimIdempotent(ary: seq<string>)
    ensures Trim(Trim(ary, 0), 0) == Trim(ary, 0)
  {
    var k := TrimKeepsMeaning(ary, 0);
    TrimStable(Trim(ary, 0), 0, k);
  }

  // ---------- when the result is fully normal ----------

  /** Walking along b from p, some ".." is reached while exactly one segment is kept, and that
      segment is ".." itself or another ".." follows. */
  predicate Clips(p: Path, b: seq<string>)
    decreases b
  {
    b != [] && (
      (b[0] == ".." && p.ups + |p.names| == 1 && (p.ups == 1 || (1 < |b| && b[1] == "..")))
      || Clips(Walk(p, b[0]), b[1..]))
  }

  lemma BreakClips(ary: seq<string>)
    requires BreaksAt(ary, 1) && Normal(ary, 1)
    ensures Clips(Meaning(ary[..1]), ary[1..])
  {
    NormalMeaning(ary[..1]);
    assert ary[1..][0] == "..";
    assert 2 < |ary| ==> ary[1..][1] == ary[2];
  }

  // Away from the break the head of b does not clip.
  lemma NoClipHere(ary: seq<string>, i: nat)
    requires i < |ary| && Normal(ary, i) && !BreaksAt(ary, i)
    ensures Clips(Meaning(ary[..i]), ary[i..]) <==> Clips(Walk(Meaning(ary[..i]), ary[i]), ary[i + 1..])
  {
    hide Walk, WalkAll, Meaning;
    NormalMeaning(ary[..i]);
    assert ary[i..][1..] == ary[i + 1..];
    assert i + 1 < |ary| ==> ary[i..][1] == ary[i + 1];
    assert i > 0 ==> ary[..i][0] == ary[0];
  }

  lemma {:induction false} TrimClips(ary: seq<string>, i: nat)
    requires Normal(ary, i) && "" !in ary
    ensures
      var r := Trim(ary, i);
      if Clips(Meaning(ary[..i]), ary[i..]) then 1 < |r| && r[1] == ".." else Normal(r, |r|)
    decreases |ary| - i
  {
    hide WalkAll, Meaning, Clips;
    if i == |ary| {
      assert ary[i..] == [];
      ClipsNot(Meaning(ary[..i]));
    } else if BreaksAt(ary, i) {
      BreakClips(ary);
    } else {
      NoClipHere(ary, i);
      MeaningNext(ary, i);
      if ary[i] == "." {
        var t := ary[..i] + ary[i + 1..];
        assert t[..i] == ary[..i] && t[i..] == ary[i + 1..];
        TrimClips(t, i);
      } else if ary[i] == ".." && i > 0 {
        var t := ary[..i - 1] + ary[i + 1..];
        assert t[..i - 1] == ary[..i - 1] && t[i - 1..] == ary[i + 1..];
        MeaningNext(ary, i - 1);
        TrimClips(t, i - 1);
      } else {
        TrimClips(ary, i + 1);
      }
    }
  }

  lemma ClipsNot(p: Path)
    ensures !Clips(p, [])
  {}

  /** Of paths without empty segments, exactly those that do not clip are normalised: no "." is left,
      and ".." only in front, so that the result is the path's meaning written out. */
  lemma FullyTrimmedIffNotClipped(ary: seq<string>)
    requires "" !in ary
    ensures Normal(Trim(ary, 0), |Trim(ary, 0)|) <==> !Clips(HERE, ary)
    ensures !Clips(HERE, ary) ==>
      var p := Meaning(ary);
      p.ups <= 1 && Trim(ary, 0) == (if p.ups == 1 then [".."] else []) + p.names
  {
    assert ary[..0] == [] && ary[0..] == ary;
    TrimClips(ary, 0);
    var k := TrimKeepsMeaning(ary, 0);
    if !Clips(HERE, ary) { NormalMeaning(Trim(ary, 0)); }
  }

  /** Two paths that are left as they are: ".." behind a name, and behind another "..". */
  lemma ClipExamples()
    ensures Clips(HERE, ["a", "..", "..", "b"]) && Trim(["a", "..", "..", "b"], 0) == ["a", "..", "..", "b"]
    ensures Clips(HERE, ["..", "..", "b"]) && Trim(["..", "..", "b"], 0) == ["..", "..", "b"]
  {
    assert Clips(Walk(HERE, "a"), ["..", "..", "b"]);
    assert ["a", "..", "..", "b"][1..] == ["..", "..", "b"];
    assert Clips(Walk(HERE, ".."), ["..", "b"]);
    assert ["..", "..", "b"][1..] == ["..", "b"];
  }

  /** An empty segment ends the work: what is in front is trimmed as if it were the whole path. */
  lemma {:induction false} EmptySegmentStops(a: seq<string>, b: seq<string>, i: nat)
    requires i <= |a| && "" !in a
    ensures Trim(a + ([""] + b), i) == Trim(a, i) + ([""] + b)
    decreases |a| - i
  {
    var e := [""] + b;
    if i < |a| && !BreaksAt(a, i) {
      if a[i] == "." {
        assert (a + e)[..i] + (a + e)[i + 1..] == (a[..i] + a[i + 1..]) + e;
        EmptySegmentStops(a[..i] + a[i + 1..], b, i);
      } else if a[i] == ".." && i > 0 {
        assert (a + e)[..i - 1] + (a + e)[i + 1..] == (a[..i - 1] + a[i + 1..]) + e;
        EmptySegmentStops(a[..i - 1] + a[i + 1..], b, i - 1);
      } else {
        EmptySegmentStops(a, b, i + 1);
      }
    }
  }
}
