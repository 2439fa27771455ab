/**
 * The falling name sign of index.js: the letters of the name, their lay-out
 * along x once the font is loaded (a running sum of glyph widths), and the
 * per-frame drop in which only the head of the queue of letter meshes falls,
 * is pinned at height 0 when it reaches the floor, and is dequeued.
 * Glyph widths come from the font library and are inputs here.
 */
module Sign {
  import opened Text

  const Name: string := "simon raynor"
  /** The height every letter mesh starts at. */
  const DropHeight: real := 100.0
  /** How far a space moves the next letter along. */
  const SpaceAdvance: real := 3.0

  /** A letter mesh: its letter and its position in the sign's group. */
  datatype Glyph = Glyph(letter: char, x: real, y: real)

  /** 'simon raynor'.toUpperCase().split(''). */
  function SignLetters(): (letters: seq<char>)
    ensures |letters| == |Name|
  {
    Upper(Name)
  }

  /** The sign reads SIMON RAYNOR: twelve characters, one of them a space. */
  lemma SignSpellsName()
    ensures SignLetters() == "SIMON RAYNOR"
  {
  }

  /** The letters skipped, the white-space ones, are exactly those for which letter.trim() is empty. */
  lemma BlankIffTrimEmpty(c: char)
    ensures IsJsWhitespace(c) <==> Trim([c]) == []
  {
    TrimEmptyIff([c]);
    assert IsBlank([c]) <==> IsJsWhitespace([c][0]);
  }

  /** What one letter adds to the running left edge. */
  function Advance(c: char, width: real): (r: real)
    ensures r == SpaceAdvance || r == width
    ensures width > 0.0 ==> r > 0.0
  {
    if IsJsWhitespace(c) then SpaceAdvance else width
  }

  /** The value of left after the first n letters. */
  function LeftAfter(letters: seq<char>, widths: seq<real>, n: nat): (r: real)
    requires n <= |letters| == |widths|
    ensures (forall i :: 0 <= i < n ==> widths[i] >= 0.0) ==> r >= 0.0
  {
    if n == 0 then 0.0
    else LeftAfter(letters, widths, n - 1) + Advance(letters[n - 1], widths[n - 1])
  }

  /** The meshes made for the first n letters, in the order they were pushed. */
  function Placed(letters: seq<char>, widths: seq<real>, n: nat): (r: seq<Glyph>)
    requires n <= |letters| == |widths|
    ensures |r| <= n
    ensures forall i :: 0 <= i < |r| ==> !IsJsWhitespace(r[i].letter)
  {
    if n == 0 then []
    else if IsJsWhitespace(letters[n - 1]) then Placed(letters, widths, n - 1)
    else Placed(letters, widths, n - 1) + [Glyph(letters[n - 1], LeftAfter(letters, widths, n - 1), DropHeight)]
  }

  /** The letters that are not skipped, in order. */
  function Visible(letters: seq<char>): (r: seq<char>)
    ensures |r| <= |letters|
    ensures forall i :: 0 <= i < |r| ==> !IsJsWhitespace(r[i])
  {
    if letters == [] then []
    else if IsJsWhitespace(letters[|letters| - 1]) then Visible(letters[..|letters| - 1])
    else Visible(letters[..|letters| - 1]) + [letters[|letters| - 1]]
  }

  function LettersOf(glyphs: seq<Glyph>): seq<char> {
    seq(|glyphs|, i requires 0 <= i < |glyphs| => glyphs[i].letter)
  }

  /**
   * The font-load callback's loop: every non-blank letter gets a mesh at
   * height 100 and at the current left edge, which then moves on by the
   * glyph's width; a blank moves it on by 3. The group is then centred.
   */
  method LayOut(letters: seq<char>, widths: seq<real>) returns (meshes: seq<Glyph>, left: real, groupX: real)
    requires |widths| == |letters|
    ensures meshes == Placed(letters, widths, |letters|)
    ensures left == LeftAfter(letters, widths, |letters|)
    ensures groupX == -left / 2.0 && groupX + left == -groupX
  {
    meshes := [];
    left := 0.0;
    for i := 0 to |letters|
      invariant meshes == Placed(letters, widths, i)
      invariant left == LeftAfter(letters, widths, i)
    {
      if !IsJsWhitespace(letters[i]) {
        meshes := meshes + [Glyph(letters[i], left, DropHeight)];
        left := left + widths[i];
      } else {
        left := left + SpaceAdvance;
      }
    }
    groupX := -left / 2.0;
  }

  /** One mesh per non-blank letter, in letter order, and none for blanks. */
  lemma {:induction false} PlacedLetters(letters: seq<char>, widths: seq<real>, n: nat)
    requires n <= |letters| == |widths|
    ensures LettersOf(Placed(letters, widths, n)) == Visible(letters[..n])
  {
    if n > 0 {
      PlacedLetters(letters, widths, n - 1);
      assert letters[..n][..n - 1] == letters[..n - 1];
    }
  }

  /** Every mesh starts at the drop height. */
  lemma {:induction false} PlacedAtDropHeight(letters: seq<char>, widths: seq<real>, n: nat)
    requires n <= |letters| == |widths|
    ensures forall g :: g in Placed(letters, widths, n) ==> g.y == DropHeight
  {
    if n > 0 {
      PlacedAtDropHeight(letters, widths, n - 1);
    }
  }

  /** Each mesh sits at the left edge reached by the letters before it. */
  lemma {:induction false} PlacedAtLeftEdge(letters: seq<char>, widths: seq<real>, n: nat, i: nat)
    requires n <= |letters| == |widths|
    requires i < n && !IsJsWhitespace(letters[i])
    ensures var k := |Visible(letters[..i])|;
      k < |Placed(letters, widths, n)|
      && Placed(letters, widths, n)[k] == Glyph(letters[i], LeftAfter(letters, widths, i), DropHeight)
  {
    assert letters[..i + 1][..i] == letters[..i];
    PlacedLetters(letters, widths, i);
    if n > i + 1 {
      PlacedAtLeftEdge(letters, widths, n - 1, i);
    }
  }

  /** With positive glyph widths every mesh lies left of the final edge. */
  lemma {:induction false} PlacedLeftOfEdge(letters: seq<char>, widths: seq<real>, n: nat)
    requires n <= |letters| == |widths|
    requires forall i :: 0 <= i < |widths| ==> widths[i] > 0.0
    ensures forall g :: g in Placed(letters, widths, n) ==> 0.0 <= g.x < LeftAfter(letters, widths, n)
    ensures 0.0 <= LeftAfter(letters, widths, n)
  {
    if n > 0 {
      PlacedLeftOfEdge(letters, widths, n - 1);
    }
  }

  /** With positive glyph widths the meshes run strictly left to right. */
  lemma {:induction false} PlacedIncreasing(letters: seq<char>, widths: seq<real>, n: nat)
    requires n <= |letters| == |widths|
    requires forall i :: 0 <= i < |widths| ==> widths[i] > 0.0
    ensures forall i, j :: 0 <= i < j < |Placed(letters, widths, n)|
              ==> Placed(letters, widths, n)[i].x < Placed(letters, widths, n)[j].x
  {
    if n > 0 {
      PlacedIncreasing(letters, widths, n - 1);
      PlacedLeftOfEdge(letters, widths, n - 1);
      var p, c, x := Placed(letters, widths, n - 1), letters[n - 1], LeftAfter(letters, widths, n - 1);
      if !IsJsWhitespace(c) {
        assert Placed(letters, widths, n) == p + [Glyph(c, x, DropHeight)];
        AppendRightOfAll(p, c, x);
      }
    }
  }

  /** A glyph placed right of every glyph of a left-to-right row extends the row. */
  lemma AppendRightOfAll(p: seq<Glyph>, c: char, x: real)
    requires forall i, j :: 0 <= i < j < |p| ==> p[i].x < p[j].x
    requires forall g :: g in p ==> g.x < x
    ensures var q := p + [Glyph(c, x, DropHeight)];
      forall i, j :: 0 <= i < j < |q| ==> q[i].x < q[j].x
  {
    var q := p + [Glyph(c, x, DropHeight)];
    forall i, j | 0 <= i < j < |q| ensures q[i].x < q[j].x {
      assert q[i] == p[i] && p[i] in p;
      if j < |p| {
        assert q[j] == p[j];
      }
    }
  }

  /** Skipping blanks distributes over concatenation. */
  lemma {:induction false} VisibleAppend(a: seq<char>, b: seq<char>)
    ensures Visible(a + b) == Visible(a) + Visible(b)
    decreases |b|
  {
    if b == [] {
      assert a + b == a;
    } else {
      var init := b[..|b| - 1];
      assert (a + b)[..|a + b| - 1] == a + init;
      VisibleAppend(a, init);
    }
  }

  /** A run without blanks is kept whole. */
  lemma {:induction false} VisibleOfSolid(s: seq<char>)
    requires forall i :: 0 <= i < |s| ==> !IsJsWhitespace(s[i])
    ensures Visible(s) == s
  {
    if s != [] {
      VisibleOfSolid(s[..|s| - 1]);
    }
  }

  /** A string with one blank, at k, keeps everything but that blank. */
  lemma VisibleSkipOne(s: seq<char>, k: nat)
    requires k < |s| && IsJsWhitespace(s[k])
    requires forall i :: 0 <= i < |s| && i != k ==> !IsJsWhitespace(s[i])
    ensures Visible(s) == s[..k] + s[k + 1..]
  {
    assert s == s[..k] + [s[k]] + s[k + 1..];
    VisibleAppend(s[..k] + [s[k]], s[k + 1..]);
    VisibleAppend(s[..k], [s[k]]);
    VisibleOfSolid(s[..k]);
    VisibleOfSolid(s[k + 1..]);
    assert Visible([s[k]]) == [] by { assert [s[k]][..0] == []; }
  }

  /** The one blank of the name is its sixth character. */
  lemma SignBlank()
    ensures forall i :: 0 <= i < |SignLetters()| ==> (IsJsWhitespace(SignLetters()[i]) <==> i == 5)
  {
    var s := SignLetters();
    SignSpellsName();
    forall i | 0 <= i < |s| && i != 5 ensures !IsJsWhitespace(s[i]) {
      LetterIsNotWhitespace(s[i]);
    }
  }

  /** Skipping the one blank of the name leaves SIMONRAYNOR. */
  lemma SignVisible()
    ensures Visible(SignLetters()) == "SIMONRAYNOR"
  {
    var s := SignLetters();
    assert Visible(s) == s[..5] + s[6..] by {
      SignBlank();
      VisibleSkipOne(s, 5);
    }
    SignSpellsName();
  }

  /** The name's sign: eleven meshes spelling SIMONRAYNOR. */
  lemma SignMeshes(widths: seq<real>)
    requires |widths| == |SignLetters()|
    ensures LettersOf(Placed(SignLetters(), widths, |widths|)) == "SIMONRAYNOR"
  {
    var s := SignLetters();
    PlacedLetters(s, widths, |s|);
    assert s[..|s|] == s;
    SignVisible();
  }

  /** The drop as a value: the queue of falling meshes and those already landed. */
  datatype Drop = Drop(queue: seq<Glyph>, landed: seq<Glyph>)

  /**
   * One frame of the drop: when the queue is not empty its head lands
   * (height pinned to 0, dequeued) if it is at or below the floor, and
   * otherwise falls by dt.
   */
  function Frame(s: Drop, dt: real): (r: Drop)
    ensures s.queue == [] ==> r == s
    ensures r.landed == s.landed || r.landed == s.landed + [s.queue[0].(y := 0.0)]
  {
    if s.queue == [] then s
    else
      var head := s.queue[0];
      if head.y <= 0.0 then Drop(s.queue[1..], s.landed + [head.(y := 0.0)])
      else Drop([head.(y := head.y - dt)] + s.queue[1..], s.landed)
  }

  /** The meshes with their heights forgotten. */
  function Footprint(glyphs: seq<Glyph>): seq<Glyph> {
    seq(|glyphs|, i requires 0 <= i < |glyphs| => glyphs[i].(y := 0.0))
  }

  /** A frame only moves the head: the queue shrinks by at most one, never grows, and the rest of it is untouched. */
  lemma FrameTouchesOnlyHead(s: Drop, dt: real)
    ensures var r := Frame(s, dt);
      |s.queue| - 1 <= |r.queue| <= |s.queue|
      && (s.queue != [] && |r.queue| == |s.queue| ==> r.queue[1..] == s.queue[1..])
      && (|r.queue| < |s.queue| <==> s.queue != [] && s.queue[0].y <= 0.0)
      && (|r.queue| < |s.queue| ==> r.queue == s.queue[1..])
  {
  }

  /** A head at or below the floor is pinned at height 0 and dequeued in that very frame. */
  lemma FrameLandsGroundedHead(s: Drop, dt: real)
    requires s.queue != [] && s.queue[0].y <= 0.0
    ensures Frame(s, dt) == Drop(s.queue[1..], s.landed + [s.queue[0].(y := 0.0)])
  {
  }

  /** A falling head keeps its letter and x and drops by exactly dt. */
  lemma FrameHeadFalls(s: Drop, dt: real)
    requires s.queue != [] && s.queue[0].y > 0.0
    ensures var r := Frame(s, dt);
      r.landed == s.landed && r.queue != []
      && r.queue[0].letter == s.queue[0].letter && r.queue[0].x == s.queue[0].x
      && r.queue[0].y == s.queue[0].y - dt
  {
  }

  /** No mesh is lost, gained or reordered: landed then queued keep the same letters and x. */
  lemma FrameKeepsFootprint(s: Drop, dt: real)
    ensures var r := Frame(s, dt);
      Footprint(r.landed + r.queue) == Footprint(s.landed + s.queue)
  {
    var r := Frame(s, dt);
    if s.queue != [] {
      if s.queue[0].y <= 0.0 {
        assert r.landed + r.queue == (s.landed + [s.queue[0].(y := 0.0)]) + s.queue[1..];
        assert s.landed + s.queue == (s.landed + [s.queue[0]]) + s.queue[1..];
      } else {
        assert r.landed + r.queue == s.landed + ([s.queue[0].(y := s.queue[0].y - dt)] + s.queue[1..]);
      }
    }
  }

  predicate AllGrounded(glyphs: seq<Glyph>) {
    forall i :: 0 <= i < |glyphs| ==> glyphs[i].y == 0.0
  }

  /** Landed meshes sit exactly on the floor. */
  lemma FrameKeepsGrounded(s: Drop, dt: real)
    requires AllGrounded(s.landed)
    ensures AllGrounded(Frame(s, dt).landed)
  {
  }

  /** The drop over a run of frames with the given steps. */
  function Run(s: Drop, dts: seq<real>): Drop
    decreases |dts|
  {
    if dts == [] then s else Run(Frame(s, dts[0]), dts[1..])
  }

  /** Meshes that have landed stay landed. */
  lemma {:induction false} RunKeepsLanded(s: Drop, dts: seq<real>)
    ensures |s.landed| <= |Run(s, dts).landed|
    ensures Run(s, dts).landed[..|s.landed|] == s.landed
    decreases |dts|
  {
    if dts != [] {
      var r := Frame(s, dts[0]);
      RunKeepsLanded(r, dts[1..]);
      assert r.landed[..|s.landed|] == s.landed;
    }
  }

  lemma StepBelow(y: real, d: real, dt: real, k: nat)
    requires k >= 1 && dt >= d && y <= k as real * d
    ensures y - dt <= (k - 1) as real * d
  {
    assert k as real * d == (k - 1) as real * d + d;
  }

  /**
   * Progress: when every frame's step is at least d > 0 and the head is no
   * higher than k * d, the head has landed after k + 1 frames.
   */
  lemma {:induction false} HeadLandsWithin(s: Drop, dts: seq<real>, d: real)
    requires s.queue != [] && d > 0.0
    requires forall i :: 0 <= i < |dts| ==> dts[i] >= d
    requires |dts| >= 1 && s.queue[0].y <= (|dts| - 1) as real * d
    ensures |Run(s, dts).landed| > |s.landed|
    decreases |dts|
  {
    var r := Frame(s, dts[0]);
    if s.queue[0].y <= 0.0 {
      RunKeepsLanded(r, dts[1..]);
    } else {
      assert |dts| >= 2;
      StepBelow(s.queue[0].y, d, dts[0], |dts| - 1);
      assert r.queue[0].y <= (|dts[1..]| - 1) as real * d;
      HeadLandsWithin(r, dts[1..], d);
    }
  }

  /** The step animate derives from its argument: the rAF timestamp in milliseconds, over 1000. */
  function StampStep(stamp: real): real {
    stamp / 1000.0
  }

  /** The step between two frames: the time between their timestamps, in seconds. */
  function ElapsedStep(last: real, stamp: real): real {
    (stamp - last) / 1000.0
  }

  /**
   * The step as written overshoots the time since the previous frame by that
   * frame's own time since page load, so it grows without bound as the page
   * stays open.
   */
  lemma StampStepOvershoots(last: real, stamp: real)
    ensures StampStep(stamp) == ElapsedStep(last, stamp) + StampStep(last)
    ensures last > 0.0 ==> StampStep(stamp) > ElapsedStep(last, stamp)
  {
  }

  /**
   * As written, a frame drawn 60 s after page load drops the head letter by
   * 60 units, and the frame 16 ms later by 60.016 more, so that it ends up
   * below the floor: the drop per frame is the time since page load.
   */
  lemma TimestampTakenAsStep()
    ensures var s0 := Drop([Glyph('S', 0.0, DropHeight)], []);
      var s1 := Frame(s0, StampStep(60000.0));
      var s2 := Frame(s1, StampStep(60016.0));
      s1.queue[0].y == 40.0
      && s2.queue[0].y == -20.016
      && s1.queue[0].y - s2.queue[0].y == 60.016
  {
  }

  /**
   * With the step taken between timestamps, a falling head drops by exactly
   * the seconds elapsed from the first timestamp to the last, one unit per second.
   */
  lemma FallTracksElapsedTime(s: Drop, t0: real, t1: real, t2: real)
    requires s.queue != [] && s.queue[0].y > 0.0
    requires Frame(s, ElapsedStep(t0, t1)).queue[0].y > 0.0
    ensures var s2 := Frame(Frame(s, ElapsedStep(t0, t1)), ElapsedStep(t1, t2));
      s2.landed == s.landed && s2.queue != []
      && s2.queue[0].y == s.queue[0].y - ElapsedStep(t0, t2)
      && s2.queue[1..] == s.queue[1..]
  {
    FrameHeadFalls(s, ElapsedStep(t0, t1));
    FrameHeadFalls(Frame(s, ElapsedStep(t0, t1)), ElapsedStep(t1, t2));
  }

  /**
   * The sign: the queue of letter meshes still falling (lettermeshes) and the
   * x at which the group of meshes is centred.
   */
  class LetterDrop {
    var queue: seq<Glyph>
    var groupX: real
    /** The timestamp of the previous frame, used by the corrected animate only. */
    var lastStamp: real
    /** The meshes that have left the queue, in the order they landed. */
    ghost var landed: seq<Glyph>

    ghost function State(): Drop
      reads this
    {
      Drop(queue, landed)
    }

    /** Every mesh that has landed rests at height 0. */
    ghost predicate Valid()
      reads this
    {
      AllGrounded(landed)
    }

    constructor ()
      ensures Valid()
      ensures queue == [] && landed == [] && groupX == 0.0 && lastStamp == 0.0
    {
      queue := [];
      groupX := 0.0;
      lastStamp := 0.0;
      landed := [];
    }

    /** The font-load callback: lays the letters out and queues their meshes. */
    method FontLoaded(widths: seq<real>)
      requires Valid()
      requires |widths| == |SignLetters()|
      modifies this
      ensures Valid()
      ensures queue == old(queue) + Placed(SignLetters(), widths, |widths|)
      ensures groupX == -LeftAfter(SignLetters(), widths, |widths|) / 2.0
      ensures landed == old(landed) && lastStamp == old(lastStamp)
    {
      var meshes, left, x := LayOut(SignLetters(), widths);
      queue := queue + meshes;
      groupX := x;
    }

    /** The queue step of one frame: the head lands or falls by dt. */
    method Fall(dt: real)
      requires Valid()
      modifies this
      ensures Valid()
      ensures State() == Frame(old(State()), dt)
      ensures groupX == old(groupX) && lastStamp == old(lastStamp)
    {
      FrameKeepsGrounded(State(), dt);
      if queue != [] {
        if queue[0].y <= 0.0 {
          landed := landed + [queue[0].(y := 0.0)];
          queue := queue[1..];
        } else {
          queue := queue[0 := queue[0].(y := queue[0].y - dt)];
        }
      }
    }

    /** animate as written: the timestamp, over 1000, is the step. */
    method Animate(stamp: real)
      requires Valid()
      modifies this
      ensures Valid()
      ensures State() == Frame(old(State()), StampStep(stamp))
      ensures groupX == old(groupX) && lastStamp == old(lastStamp)
    {
      Fall(StampStep(stamp));
    }

    /** animate with the step taken since the previous frame's timestamp. */
    method AnimateSince(stamp: real)
      requires Valid()
      modifies this
      ensures Valid()
      ensures State() == Frame(old(State()), ElapsedStep(old(lastStamp), stamp))
      ensures groupX == old(groupX) && lastStamp == stamp
    {
      Fall(ElapsedStep(lastStamp, stamp));
      lastStamp := stamp;
    }
  }
}
