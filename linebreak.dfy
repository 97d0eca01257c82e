/** `print_linebreak`: word wrapping of a test description. The source copies
    the string, walks its spaces with `strpbrk` and overwrites some of them
    with a line break before printing the copy; the model returns the copy. */
module Linebreak {

  /** The positions of the spaces of s at or after `from`, ascending. */
  function SpacesFrom(s: string, from: nat): (r: seq<nat>)
    decreases |s| - from
  {
    if from >= |s| then []
    else if s[from] == ' ' then [from] + SpacesFrom(s, from + 1)
    else SpacesFrom(s, from + 1)
  }

  lemma {:induction false} SpacesAreSpaces(s: string, from: nat)
    ensures forall q :: q in SpacesFrom(s, from) ==> from <= q < |s| && s[q] == ' '
    decreases |s| - from
  {
    if from < |s| {
      SpacesAreSpaces(s, from + 1);
    }
  }

  /** Skipping characters that are not spaces does not change the spaces ahead. */
  lemma {:induction false} SpacesSkip(s: string, from: nat, p: nat)
    requires from <= p <= |s|
    requires forall k :: from <= k < p ==> s[k] != ' '
    ensures SpacesFrom(s, from) == SpacesFrom(s, p)
    decreases p - from
  {
    if from < p {
      SpacesSkip(s, from + 1, p);
    }
  }

  /** The positions the scan overwrites, given the width, the current line
      start, the previous space (the next overwrite target) and the spaces
      still ahead. At each space p: when p lies more than `width` past the
      line start, the previous target is broken and p becomes the line start;
      p always becomes the next target. */
  function Breaks(width: int, start: int, prev: nat, ps: seq<nat>): set<nat>
    decreases |ps|
  {
    if ps == [] then {}
    else if ps[0] - start > width then {prev} + Breaks(width, ps[0], ps[0], ps[1..])
    else Breaks(width, start, ps[0], ps[1..])
  }

  lemma {:induction false} BreaksWhere(width: int, start: int, prev: nat, ps: seq<nat>)
    ensures forall k :: k in Breaks(width, start, prev, ps) ==> k == prev || k in ps
    decreases |ps|
  {
    if ps != [] {
      BreaksWhere(width, ps[0], ps[0], ps[1..]);
      BreaksWhere(width, start, ps[0], ps[1..]);
    }
  }

  /** When no space lies more than `width` past the line start, nothing breaks. */
  lemma {:induction false} BreaksNone(width: int, start: int, prev: nat, ps: seq<nat>)
    requires forall q :: q in ps ==> q - start <= width
    ensures Breaks(width, start, prev, ps) == {}
    decreases |ps|
  {
    if ps != [] {
      assert ps[0] in ps;
      assert forall q :: q in ps[1..] ==> q in ps;
      BreaksNone(width, start, ps[0], ps[1..]);
    }
  }

  /** Some line break is written exactly when some space lies more than
      `width` past the line start: the first such space breaks the line, and
      until a break the line start does not move. */
  lemma {:induction false} BreaksWhenFar(width: int, start: int, prev: nat, ps: seq<nat>)
    ensures Breaks(width, start, prev, ps) != {} <==> exists i :: 0 <= i < |ps| && ps[i] - start > width
    decreases |ps|
  {
    if ps != [] && ps[0] - start <= width {
      BreaksWhenFar(width, start, ps[0], ps[1..]);
      if exists i :: 0 <= i < |ps| && ps[i] - start > width {
        var i :| 0 <= i < |ps| && ps[i] - start > width;
        assert ps[1..][i - 1] == ps[i];
      }
      if exists i :: 0 <= i < |ps[1..]| && ps[1..][i] - start > width {
        var i :| 0 <= i < |ps[1..]| && ps[1..][i] - start > width;
        assert ps[i + 1] == ps[1..][i];
      }
    }
  }

  /** Every space at or after `from` is listed. */
  lemma {:induction false} SpacesComplete(s: string, from: nat, k: nat)
    requires from <= k < |s| && s[k] == ' '
    ensures k in SpacesFrom(s, from)
    decreases k - from
  {
    if from < k {
      SpacesComplete(s, from + 1, k);
    }
  }

  /** s with the positions in `marks` overwritten by line breaks. */
  function Marked(s: string, marks: set<nat>): string
  {
    seq(|s|, k requires 0 <= k < |s| => if k in marks then '\n' else s[k])
  }

  /** The string as `print_linebreak` prints it. The first target is index 0
      whatever it holds, and after a break the line start is the space that
      triggered it, not the one that was overwritten. */
  function Wrap(s: string, width: int): string
  {
    Marked(s, Breaks(width, 0, 0, SpacesFrom(s, 0)))
  }

  /** Same length; every changed character became a line break, and every
      changed character other than the first was a space. */
  lemma WrapChangesOnlySpaces(s: string, width: int)
    ensures |Wrap(s, width)| == |s|
    ensures forall k :: 0 <= k < |s| && Wrap(s, width)[k] != s[k] ==>
      Wrap(s, width)[k] == '\n' && (k == 0 || s[k] == ' ')
  {
    BreaksWhere(width, 0, 0, SpacesFrom(s, 0));
    SpacesAreSpaces(s, 0);
  }

  /** The copy gets a line break (somewhere) exactly when some space lies
      more than `width` past the start of the string. */
  lemma WrapBreaksIff(s: string, width: int)
    ensures Breaks(width, 0, 0, SpacesFrom(s, 0)) != {} <==>
      exists k :: 0 <= k < |s| && s[k] == ' ' && k > width
  {
    var ps := SpacesFrom(s, 0);
    BreaksWhenFar(width, 0, 0, ps);
    SpacesAreSpaces(s, 0);
    if exists k :: 0 <= k < |s| && s[k] == ' ' && k > width {
      var k :| 0 <= k < |s| && s[k] == ' ' && k > width;
      SpacesComplete(s, 0, k);
      var i :| 0 <= i < |ps| && ps[i] == k;
    }
    if exists i :: 0 <= i < |ps| && ps[i] - 0 > width {
      var i :| 0 <= i < |ps| && ps[i] - 0 > width;
      assert ps[i] in ps;
    }
  }

  /** A description whose spaces all lie within `width` of its start is
      printed unchanged. */
  lemma WrapFits(s: string, width: int)
    requires forall k :: 0 <= k < |s| && s[k] == ' ' ==> k <= width
    ensures Wrap(s, width) == s
  {
    SpacesAreSpaces(s, 0);
    BreaksNone(width, 0, 0, SpacesFrom(s, 0));
  }

  /** When the first space lies past `width`, the first character is
      overwritten, even though it is not a space. */
  lemma WrapFirstTarget(s: string, width: int, p: nat)
    requires p < |s| && s[p] == ' ' && p > width
    requires forall k :: 0 <= k < p ==> s[k] != ' '
    ensures Wrap(s, width)[0] == '\n'
  {
    SpacesSkip(s, 0, p);
    assert SpacesFrom(s, p) == [p] + SpacesFrom(s, p + 1);
  }

  /** With width 4, "aaaa bb ccc dd" breaks only after "aaaa": the next line
      is measured from the space after "bb", so it runs to 9 characters. */
  lemma WrapLineStartExample()
    ensures Wrap("aaaa bb ccc dd", 4) == "aaaa\nbb ccc dd"
  {
    var s := "aaaa bb ccc dd";
    SpacesSkip(s, 0, 4);
    SpacesSkip(s, 5, 7);
    SpacesSkip(s, 8, 11);
    SpacesSkip(s, 12, 14);
    assert SpacesFrom(s, 0) == [4, 7, 11];
    assert Breaks(4, 0, 0, [4, 7, 11]) == {4};
  }

  /** No space in s[lo..hi]. */
  predicate NoSpace(s: string, lo: nat, hi: nat)
    requires hi <= |s|
  {
    forall k :: lo <= k < hi ==> s[k] != ' '
  }

  /** `strpbrk(s + from, " ")` (the C library search): the first space at or
      after `from`, or -1 for NULL. */
  function Strpbrk(s: string, from: nat): (p: int)
    requires from <= |s|
    ensures p == -1 || from <= p < |s|
    ensures p == -1 ==> NoSpace(s, from, |s|)
    ensures p != -1 ==> s[p] == ' ' && NoSpace(s, from, p)
    decreases |s| - from
  {
    if from == |s| then -1
    else if s[from] == ' ' then from
    else Strpbrk(s, from + 1)
  }

  /** The spaces still to visit when the scan is at p (-1: none). */
  function Pending(s: string, p: int): seq<nat>
  {
    if p < 0 then [] else SpacesFrom(s, p)
  }

  /** The space `strpbrk` finds starts the rest of the spaces. */
  lemma {:induction false} StrpbrkFinds(s: string, from: nat)
    requires from <= |s|
    ensures Pending(s, Strpbrk(s, from)) == SpacesFrom(s, from)
    decreases |s| - from
  {
    if from < |s| && s[from] != ' ' {
      StrpbrkFinds(s, from + 1);
    }
  }

  /** Line breaks written behind the search position do not change what
      `strpbrk` finds. */
  lemma {:induction false} StrpbrkUnmarked(s: string, marks: set<nat>, from: nat)
    requires from <= |s|
    requires forall k :: k in marks ==> k < from
    ensures Strpbrk(Marked(s, marks), from) == Strpbrk(s, from)
    decreases |s| - from
  {
    if from < |s| {
      assert Marked(s, marks)[from] == s[from];
      StrpbrkUnmarked(s, marks, from + 1);
    }
  }

  lemma MarkOne(s: string, marks: set<nat>, i: nat)
    requires i < |s|
    ensures Marked(s, marks)[i := '\n'] == Marked(s, marks + {i})
  {
  }

  /** Every mark lies before p. */
  predicate Behind(marks: set<nat>, p: int)
  {
    forall k :: k in marks ==> k < p
  }

  /** One step of the scan at the space p: when p lies more than `width`
      past the line start the previous target is broken and p starts the
      line; then `strpbrk` on the partly overwritten copy finds the next
      space, and the breaks still to come are those ahead of it. */
  lemma ScanStep(str: string, width: int, breaks: set<nat>, done: set<nat>, start: int, prev: nat, p: nat)
    requires p < |str| && str[p] == ' ' && prev <= p
    requires Behind(done, p)
    requires breaks == done + Breaks(width, start, prev, Pending(str, p))
    ensures var brk := p - start > width;
      var done' := if brk then done + {prev} else done;
      var start' := if brk then p else start;
      var next := Strpbrk(Marked(str, done'), p + 1);
      && (next == -1 || p < next < |str|)
      && (next != -1 ==> str[next] == ' ' && Behind(done', next))
      && breaks == done' + Breaks(width, start', p, Pending(str, next))
      && (brk ==> Marked(str, done)[prev := '\n'] == Marked(str, done'))
  {
    assert SpacesFrom(str, p) == [p] + SpacesFrom(str, p + 1);
    var brk := p - start > width;
    var done' := if brk then done + {prev} else done;
    StrpbrkUnmarked(str, done', p + 1);
    StrpbrkFinds(str, p + 1);
    if brk {
      MarkOne(str, done, prev);
    }
  }

  /** `print_linebreak(str, width)` without the printing: the copy it prints. */
  method PrintLinebreak(str: string, width: int) returns (r: string)
    ensures r == Wrap(str, width)
    ensures |r| == |str|
  {
    var s := new char[|str|](i requires 0 <= i < |str| => str[i]);
    assert s[..] == str == Marked(str, {});
    var start: int := 0;
    var prev: nat := 0;
    var p := Strpbrk(s[..], 0);
    StrpbrkFinds(str, 0);
    ghost var breaks := Breaks(width, 0, 0, SpacesFrom(str, 0));
    ghost var done: set<nat> := {};
    while p != -1
      invariant s.Length == |str|
      invariant p == -1 || prev <= p < |str|
      invariant p != -1 ==> str[p] == ' ' && Behind(done, p)
      invariant s[..] == Marked(str, done)
      invariant breaks == done + Breaks(width, start, prev, Pending(str, p))
      decreases if p == -1 then 0 else |str| - p + 1
    {
      ScanStep(str, width, breaks, done, start, prev, p);
      if p - start > width {
        s[prev] := '\n';
        done := done + {prev};
        start := p;
      }
      prev := p;
      p := Strpbrk(s[..], p + 1);
    }
    r := s[..];
  }
}
