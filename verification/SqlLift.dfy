/** From a laid-out text back to symbols: layout moves white space and nothing else. */
module SqlLift {
  import opened SqlText
  import opened SqlProtect
  import opened SqlShape
  import opened SqlFormat
  import opened SqlUpcase

  /** The symbols of `x` spread over the white space of `w`. */
  function Lift(w: string, x: seq<Sym>): seq<Sym>
    decreases |w| + |x|
  {
    if w != "" && IsSpace(w[0]) then [Ch(w[0])] + Lift(w[1..], x)
    else if x == [] then []
    else if x[0].Ch? && IsSpace(x[0].c) then Lift(w, x[1..])
    else if x[0].Hole? then [x[0]] + Lift(if Key(x[0].k) <= w then w[|Key(x[0].k)|..] else w, x[1..])
    else [x[0]] + Lift(if w != "" then w[1..] else w, x[1..])
  }

  predicate IsSolid(c: char) {
    !IsSpace(c) && !IsSeparator(c)
  }

  lemma WordsAreSolid(c: char)
    ensures IsWord(c) ==> IsSolid(c)
  {}

  /** A solid stretch at the front of one text is at the front of every text with the same marks. */
  lemma {:induction false} SolidFront(p: string, z: string, w: string, a: bool, b: bool)
    requires p != "" && forall k :: 0 <= k < |p| ==> IsSolid(p[k])
    requires w != "" && !IsSpace(w[0])
    requires Marks(w, a) == Marks(p + z, b)
    ensures p <= w && a == b
    ensures Marks(w[|p|..], false) == Marks(z, false)
  {
    hide IsSpace, IsSeparator;
    var t := p + z;
    assert t[1..] == p[1..] + z && t[0] == p[0];
    assert Marks(t, b)[0] == Mark(Ch(p[0]), b) && Marks(t, b)[1..] == Marks(t[1..], false);
    MarksFront(w, a);
    assert w[0] == p[0];
    if |p| == 1 {
      assert t[1..] == z;
    } else {
      assert p[1..][0] == p[1];
      var m := Marks(t[1..], false);
      assert m[0] == Mark(Ch(p[1]), false);
      assert Marks(w[1..], false) == m;
      if w[1..] == "" || IsSpace(w[1..][0]) {
        MarksApart(w[1..]);
      }
      forall k | 0 <= k < |p| - 1
        ensures IsSolid(p[1..][k])
      {
        assert p[1..][k] == p[k + 1];
      }
      SolidFront(p[1..], z, w[1..], false, false);
      assert w[1..][|p| - 1..] == w[|p|..];
      assert w == [w[0]] + w[1..];
    }
  }

  lemma MarksFront(w: string, a: bool)
    requires w != "" && !IsSpace(w[0])
    ensures Marks(w, a) != [] && Marks(w, a)[0] == Mark(Ch(w[0]), a || IsSeparator(w[0]))
    ensures Marks(w, a)[1..] == Marks(w[1..], IsSeparator(w[0]))
  {}

  lemma {:induction false} MarksAfterSpace(w: string)
    ensures Marks(w, true) != [] ==> Marks(w, true)[0].apart
  {
    if w != "" && IsSpace(w[0]) { MarksAfterSpace(w[1..]); }
  }

  lemma MarksApart(w: string)
    requires w == "" || IsSpace(w[0])
    ensures Marks(w, false) != [] ==> Marks(w, false)[0].apart
  {
    if w != "" { MarksAfterSpace(w[1..]); }
  }

  lemma {:induction false} NoMarksIsSpace(w: string, a: bool)
    requires Marks(w, a) == []
    ensures SpaceBetween(w, 0, |w|)
  {
    hide IsSpace;
    if w != "" {
      NoMarksIsSpace(w[1..], true);
      assert forall k :: 0 < k < |w| ==> w[k] == w[1..][k - 1];
    }
  }

  lemma KeyIsSolid(k: nat)
    ensures Key(k) != "" && forall d :: 0 <= d < |Key(k)| ==> IsSolid(Key(k)[d])
  {
    hide IsSolid, Key;
    KeyIsLongWord(k);
    forall d | 0 <= d < |Key(k)|
      ensures IsSolid(Key(k)[d])
    {
      WordsAreSolid(Key(k)[d]);
    }
  }

  lemma SolidIsNoSpace(c: char)
    ensures IsSolid(c) ==> !IsSpace(c) && !IsSeparator(c)
  {}

  /** A text with the marks of a rendered symbol sequence is itself one, of the same shape. */
  lemma {:induction false} Lifted(w: string, x: seq<Sym>, values: seq<string>, a: bool, b: bool)
    requires Marks(w, a) == Marks(Render(x, values, 0), b)
    ensures Render(Lift(w, x), values, 0) == w
    ensures Shape(Lift(w, x), a) == Shape(x, b)
    decreases |w| + |x|
  {
    hide IsSpace, IsSeparator, IsSolid, Key, Marks;
    if w != "" && IsSpace(w[0]) {
      LiftSpace(w, x, values, a, b);
    } else if x == [] {
      LiftNothing(w, values, a, b);
    } else if x[0].Ch? && IsSpace(x[0].c) {
      RenderedSpace(x, values, b);
      Lifted(w, x[1..], values, a, true);
    } else if x[0].Hole? {
      LiftHole(w, x, values, a, b);
    } else {
      LiftCharacter(w, x, values, a, b);
    }
  }

  lemma RenderedSpace(x: seq<Sym>, values: seq<string>, b: bool)
    requires x != [] && x[0].Ch? && IsSpace(x[0].c)
    ensures Marks(Render(x, values, 0), b) == Marks(Render(x[1..], values, 0), true)
    ensures Shape(x, b) == Shape(x[1..], true)
  {
    hide IsSpace;
    assert Render(x, values, 0)[1..] == Render(x[1..], values, 0);
  }

  lemma LiftNothing(w: string, values: seq<string>, a: bool, b: bool)
    requires Marks(w, a) == Marks(Render([], values, 0), b)
    requires w != "" ==> !IsSpace(w[0])
    ensures w == ""
  {
    hide IsSpace;
    NoMarksIsSpace(w, a);
  }

  lemma {:induction false} LiftSpace(w: string, x: seq<Sym>, values: seq<string>, a: bool, b: bool)
    requires Marks(w, a) == Marks(Render(x, values, 0), b)
    requires w != "" && IsSpace(w[0])
    ensures Render(Lift(w, x), values, 0) == w
    ensures Shape(Lift(w, x), a) == Shape(x, b)
    decreases |w| + |x|, 0
  {
    hide IsSpace, IsSeparator;
    Lifted(w[1..], x, values, true, b);
    var rest := Lift(w[1..], x);
    assert Lift(w, x) == [Ch(w[0])] + rest;
    assert ([Ch(w[0])] + rest)[1..] == rest;
    assert w == [w[0]] + w[1..];
  }

  lemma {:induction false} LiftHole(w: string, x: seq<Sym>, values: seq<string>, a: bool, b: bool)
    requires Marks(w, a) == Marks(Render(x, values, 0), b)
    requires w != "" ==> !IsSpace(w[0])
    requires x != [] && x[0].Hole?
    ensures Render(Lift(w, x), values, 0) == w
    ensures Shape(Lift(w, x), a) == Shape(x, b)
    decreases |w| + |x|, 0
  {
    hide IsSpace, IsSeparator, IsSolid, Key, Marks;
    var key, z := Key(x[0].k), Render(x[1..], values, 0);
    KeyIsSolid(x[0].k);
    SolidIsNoSpace(key[0]);
    MarksFront(key + z, b);
    if w == "" { NoMarks(a); }
    SolidFront(key, z, w, a, b);
    var v := w[|key|..];
    Lifted(v, x[1..], values, false, false);
    var rest := Lift(v, x[1..]);
    assert Lift(w, x) == [x[0]] + rest;
    assert ([x[0]] + rest)[1..] == rest;
    assert w == key + v;
  }

  lemma NoMarks(a: bool)
    ensures Marks("", a) == []
  {}

  lemma {:induction false} LiftCharacter(w: string, x: seq<Sym>, values: seq<string>, a: bool, b: bool)
    requires Marks(w, a) == Marks(Render(x, values, 0), b)
    requires w != "" ==> !IsSpace(w[0])
    requires x != [] && x[0].Ch? && !IsSpace(x[0].c)
    ensures Render(Lift(w, x), values, 0) == w
    ensures Shape(Lift(w, x), a) == Shape(x, b)
    decreases |w| + |x|, 0
  {
    hide IsSpace, IsSeparator, Marks;
    var c, z := x[0].c, Render(x[1..], values, 0);
    var t := Render(x, values, 0);
    assert t == [c] + z && t[1..] == z;
    MarksFront(t, b);
    if w == "" { NoMarks(a); }
    MarksFront(w, a);
    var sep := IsSeparator(c);
    assert w[0] == c;
    Lifted(w[1..], x[1..], values, sep, sep);
    var rest := Lift(w[1..], x[1..]);
    assert Lift(w, x) == [x[0]] + rest;
    assert ([x[0]] + rest)[1..] == rest;
    assert w == [c] + w[1..];
  }

  lemma {:induction false} LiftHoles(w: string, x: seq<Sym>, values: seq<string>)
    requires HolesIn(x, values)
    ensures HolesIn(Lift(w, x), values)
    decreases |w| + |x|
  {
    hide IsSpace, Key;
    if w != "" && IsSpace(w[0]) { LiftHoles(w[1..], x, values); }
    else if x == [] {}
    else if x[0].Ch? && IsSpace(x[0].c) { LiftHoles(w, x[1..], values); }
    else if x[0].Hole? { LiftHoles(if Key(x[0].k) <= w then w[|Key(x[0].k)|..] else w, x[1..], values); }
    else { LiftHoles(if w != "" then w[1..] else w, x[1..], values); }
  }
}
