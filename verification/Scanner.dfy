/** The terminal-activity scanner of runner/internal/runner/runner.go: one index loop over
    each chunk of output, against a tokenizer of the control sequences it recognises
    (a subset of section 5.4 of ECMA-48). */
module Scanner {
  import opened Base

  const CR: byte := 13
  const LF: byte := 10
  const ESC: byte := 27
  const BRACKET: byte := 91

  // ---- The reference --------------------------------------------------------------

  datatype Token =
    | Return(bare: bool)                                   // bare: not followed by a line feed
    | Plain(b: byte)
    | Control(private: bool, params: bytes, final: byte)   // ESC [ params final
    | Unfinished                                           // ESC [ ... up to the end

  predicate IsPrivateMark(b: byte) { b == 63 || b == 62 || b == 33 }  // ? > !

  predicate IsParam(b: byte) { 48 <= b <= 57 || b == 59 }  // 0-9 ;

  /** The end of the run of parameter bytes that starts at i. */
  function ParamEnd(p: bytes, i: nat): (j: nat)
    requires i <= |p|
    ensures i <= j <= |p|
    decreases |p| - i
  {
    if i < |p| && IsParam(p[i]) then ParamEnd(p, i + 1) else i
  }

  predicate OpensControl(p: bytes, i: nat) { i + 1 < |p| && p[i] == ESC && p[i + 1] == BRACKET }

  predicate HasMark(p: bytes, i: nat) { i + 2 < |p| && IsPrivateMark(p[i + 2]) }

  function ParamStart(p: bytes, i: nat): (j: nat)
    requires OpensControl(p, i)
    ensures i < j <= |p|
  {
    if HasMark(p, i) then i + 3 else i + 2
  }

  function ControlEnd(p: bytes, i: nat): (j: nat)
    requires OpensControl(p, i)
    ensures i < ParamStart(p, i) <= j <= |p|
  {
    ParamEnd(p, ParamStart(p, i))
  }

  /** The token at i. */
  function At(p: bytes, i: nat): Token
    requires i < |p|
  {
    if p[i] == CR then Return(i + 1 >= |p| || p[i + 1] != LF)
    else if !OpensControl(p, i) then Plain(p[i])
    else
      var j := ControlEnd(p, i);
      if j == |p| then Unfinished else Control(HasMark(p, i), p[ParamStart(p, i)..j], p[j])
  }

  /** Where the next token starts. */
  function After(p: bytes, i: nat): (j: nat)
    requires i < |p|
    ensures i < j <= |p|
  {
    if p[i] == CR || !OpensControl(p, i) then i + 1
    else if ControlEnd(p, i) == |p| then |p|
    else ControlEnd(p, i) + 1
  }

  function Tokens(p: bytes, i: nat): seq<Token>
    requires i <= |p|
    decreases |p| - i
  {
    if i == |p| then [] else [At(p, i)] + Tokens(p, After(p, i))
  }

  predicate MovesCursor(final: byte) {
    || 65 <= final <= 72                        // A to H
    || final == 102 || final == 100             // f d
    || final == 74 || final == 75               // J K
    || final == 83 || final == 84               // S T
    || final == 115 || final == 117             // s u
  }

  predicate IsAltScreen(params: bytes) {
    params == [49, 48, 52, 57] || params == [52, 55] || params == [49, 48, 52, 55]  // 1049 47 1047
  }

  predicate IsToggle(final: byte) { final == 104 || final == 108 }  // h l

  /** Whether the alternate screen is on, and whether anything drew its own screen. */
  datatype Screen = Screen(alt: bool, active: bool)

  function Act(s: Screen, t: Token): Screen {
    match t
    case Return(bare) => s.(active := s.active || bare)
    case Control(private, params, final) =>
      if private && IsToggle(final) then Screen(if IsAltScreen(params) then final == 104 else s.alt, true)
      else s.(active := s.active || (!private && MovesCursor(final)))
    case _ => s
  }

  function Meaning(s: Screen, ts: seq<Token>): Screen
    decreases ts
  {
    if ts == [] then s else Meaning(Act(s, ts[0]), ts[1..])
  }

  // ---- The loop -------------------------------------------------------------------------

  lemma StepAt(s: Screen, p: bytes, i: nat)
    requires i < |p|
    ensures Meaning(s, Tokens(p, i)) == Meaning(Act(s, At(p, i)), Tokens(p, After(p, i)))
  {
  }

  /** What the tokens from i on still do. */
  function Rest(s: Screen, p: bytes, i: nat): Screen
    requires i <= |p|
  {
    Meaning(s, Tokens(p, i))
  }

  lemma ReturnStep(s: Screen, p: bytes, i: nat)
    requires i < |p| && p[i] == CR
    ensures Rest(s, p, i) == Rest(s.(active := s.active || i + 1 >= |p| || p[i + 1] != LF), p, i + 1)
  {
  }

  lemma PlainStep(s: Screen, p: bytes, i: nat)
    requires i < |p| && p[i] != CR && !OpensControl(p, i)
    ensures Rest(s, p, i) == Rest(s, p, i + 1)
  {
  }

  lemma ControlStep(s: Screen, p: bytes, i: nat, priv: bool, start: nat, j: nat)
    requires OpensControl(p, i) && priv == HasMark(p, i) && start == ParamStart(p, i) && j == ControlEnd(p, i)
    ensures Rest(s, p, i) == if j == |p| then s else Rest(Act(s, Control(priv, p[start..j], p[j])), p, j + 1)
  {
    StepAt(s, p, i);
  }

  class Watcher {
    var altScreen: bool
    var lastCtl: int

    /** For any bytes: the loop stays in bounds, leaves the alternate-screen state the tokens
        spell out, and stamps the time exactly when one of them drew on the screen. */
    method MarkScreenActivity(p: bytes, now: int)
      modifies this
      ensures var s := Meaning(Screen(old(altScreen), false), Tokens(p, 0));
              altScreen == s.alt && lastCtl == if s.active then now else old(lastCtl)
    {
      var ctl := false;
      var i := 0;
      ghost var goal := Rest(Screen(altScreen, false), p, 0);
      while i < |p|
        modifies this`altScreen
        invariant 0 <= i <= |p|
        invariant Rest(Screen(altScreen, ctl), p, i) == goal
      {
        var b := p[i];
        ghost var s := Screen(altScreen, ctl);
        if b == CR {
          ReturnStep(s, p, i);
          if i + 1 >= |p| || p[i + 1] != LF {
            ctl := true;
          }
          i := i + 1;
          continue;
        }
        if b != ESC || i + 1 >= |p| || p[i + 1] != BRACKET {
          PlainStep(s, p, i);
          i := i + 1;
          continue;
        }
        var j := i + 2;
        var priv := j < |p| && IsPrivateMark(p[j]);
        if priv {
          j := j + 1;
        }
        var start := j;
        while j < |p| && IsParam(p[j])
          invariant start <= j <= |p|
          invariant ParamEnd(p, j) == ParamEnd(p, start)
        {
          j := j + 1;
        }
        assert start == ParamStart(p, i) && j == ControlEnd(p, i) && priv == HasMark(p, i);
        ControlStep(s, p, i, priv, start, j);
        if j >= |p| {
          break;
        }
        ctl := ApplyFinal(priv, p[start..j], p[j], ctl);
        i := j + 1;
      }
      if ctl {
        lastCtl := now;
      }
    }

    /** The switch over one finished control sequence. */
    method ApplyFinal(priv: bool, params: bytes, final: byte, seen: bool) returns (ctl: bool)
      modifies this`altScreen
      ensures Screen(altScreen, ctl) == Act(Screen(old(altScreen), seen), Control(priv, params, final))
    {
      ctl := seen;
      if priv && (final == 104 || final == 108) {
        if params == [49, 48, 52, 57] || params == [52, 55] || params == [49, 48, 52, 55] {
          altScreen := final == 104;
        }
        ctl := true;
      } else if !priv && MovesCursor(final) {
        ctl := true;
      }
    }
  }

  // ---- Chunks ------------------------------------------------------------------------------

  lemma {:induction false} MeaningAppend(s: Screen, a: seq<Token>, b: seq<Token>)
    ensures Meaning(s, a + b) == Meaning(Meaning(s, a), b)
    decreases a
  {
    if a == [] {
      assert a + b == b;
    } else {
      MeaningAppend(Act(s, a[0]), a[1..], b);
      assert (a + b)[1..] == a[1..] + b;
    }
  }

  /** From i on, the chunk does not end in a scanned CR, an ESC or an unfinished sequence. */
  predicate Clean(p: bytes, i: nat)
    requires i <= |p|
    decreases |p| - i
  {
    if i == |p| then true
    else if After(p, i) < |p| then Clean(p, After(p, i))
    else At(p, i).Control? || (At(p, i).Plain? && p[i] != ESC)
  }

  lemma {:induction false} ParamEndKeeps(a: bytes, b: bytes, i: nat)
    requires i <= |a| && ParamEnd(a, i) < |a|
    ensures ParamEnd(a + b, i) == ParamEnd(a, i)
    decreases |a| - i
  {
    if i < |a| && IsParam(a[i]) { ParamEndKeeps(a, b, i + 1); }
  }

  /** More input does not change a token that is already decided. */
  lemma TokenKeeps(a: bytes, b: bytes, i: nat)
    requires i < |a| && (After(a, i) < |a| || Clean(a, i))
    ensures At(a + b, i) == At(a, i) && After(a + b, i) == After(a, i)
  {
    var q := a + b;
    if a[i] != CR && OpensControl(a, i) {
      assert ControlEnd(a, i) < |a|;
      assert ParamStart(q, i) == ParamStart(a, i);
      ParamEndKeeps(a, b, ParamStart(a, i));
      assert q[ParamStart(a, i)..ControlEnd(a, i)] == a[ParamStart(a, i)..ControlEnd(a, i)];
    }
  }

  lemma {:induction false} ParamEndMoves(a: bytes, b: bytes, i: nat)
    requires i <= |b|
    ensures ParamEnd(a + b, |a| + i) == |a| + ParamEnd(b, i)
    decreases |b| - i
  {
    if i < |b| && IsParam(b[i]) { ParamEndMoves(a, b, i + 1); }
  }

  lemma TokenMoves(a: bytes, b: bytes, i: nat)
    requires i < |b|
    ensures At(a + b, |a| + i) == At(b, i) && After(a + b, |a| + i) == |a| + After(b, i)
  {
    var q := a + b;
    if OpensControl(b, i) {
      ParamEndMoves(a, b, ParamStart(b, i));
      assert q[|a| + ParamStart(b, i)..|a| + ControlEnd(b, i)] == b[ParamStart(b, i)..ControlEnd(b, i)];
    }
  }

  lemma {:induction false} TokensMove(a: bytes, b: bytes, i: nat)
    requires i <= |b|
    ensures Tokens(a + b, |a| + i) == Tokens(b, i)
    decreases |b| - i
  {
    if i < |b| {
      TokenMoves(a, b, i);
      TokensMove(a, b, After(b, i));
    }
  }

  lemma {:induction false} TokensSplit(a: bytes, b: bytes, i: nat)
    requires i <= |a| && Clean(a, i)
    ensures Tokens(a + b, i) == Tokens(a, i) + Tokens(b, 0)
    decreases |a| - i
  {
    if i == |a| {
      TokensMove(a, b, 0);
    } else {
      TokenKeeps(a, b, i);
      TokensSplit(a, b, After(a, i));
    }
  }

  /** And only then: a chunk that is not clean has a continuation that reads differently. */
  lemma {:induction false} DirtyChunk(a: bytes, i: nat) returns (b: bytes)
    requires i <= |a| && !Clean(a, i)
    ensures Tokens(a + b, i) != Tokens(a, i) + Tokens(b, 0)
    decreases |a| - i
  {
    if After(a, i) < |a| {
      b := DirtyChunk(a, After(a, i));
      TokenKeeps(a, b, i);
      var t, u, v := At(a, i), Tokens(a + b, After(a, i)), Tokens(a, After(a, i)) + Tokens(b, 0);
      assert Tokens(a + b, i) == [t] + u;
      assert Tokens(a, i) + Tokens(b, 0) == [t] + v;
      assert ([t] + u)[1..] == u && ([t] + v)[1..] == v;
    } else {
      b := DirtyEnd(a, i);
    }
  }

  lemma DirtyEnd(a: bytes, i: nat) returns (b: bytes)
    requires i < |a| && After(a, i) == |a| && !Clean(a, i)
    ensures Tokens(a + b, i) != Tokens(a, i) + Tokens(b, 0)
  {
    var t := At(a, i);
    b := if t.Return? then [LF] else if t.Plain? then [BRACKET] else [65];
    if t.Return? {
      assert (a + b)[i + 1] == LF;
    } else if t.Plain? {
      assert OpensControl(a + b, i);
    } else {
      UnfinishedEnds(a, i);
    }
    assert At(a + b, i) != t;
    assert Tokens(a + b, i)[0] == At(a + b, i);
    assert (Tokens(a, i) + Tokens(b, 0))[0] == t;
  }

  lemma {:induction false} ParamEndStops(a: bytes, i: nat)
    requires i <= |a| && ParamEnd(a, i) == |a|
    ensures ParamEnd(a + [65], i) == |a|
    decreases |a| - i
  {
    if i < |a| { ParamEndStops(a, i + 1); }
  }

  lemma UnfinishedEnds(a: bytes, i: nat)
    requires i < |a| && At(a, i).Unfinished?
    ensures At(a + [65], i).Control?
  {
    assert ParamStart(a + [65], i) == ParamStart(a, i);
    ParamEndStops(a, ParamStart(a, i));
  }

  /** What was seen before a chunk neither hides nor invents what the chunk does. */
  lemma {:induction false} SeenIsSeparate(alt: bool, seen: bool, ts: seq<Token>)
    ensures Meaning(Screen(alt, seen), ts).alt == Meaning(Screen(alt, false), ts).alt
    ensures Meaning(Screen(alt, seen), ts).active == (seen || Meaning(Screen(alt, false), ts).active)
    decreases ts
  {
    if ts != [] {
      var a, b := Act(Screen(alt, seen), ts[0]), Act(Screen(alt, false), ts[0]);
      SeenIsSeparate(a.alt, a.active, ts[1..]);
      SeenIsSeparate(b.alt, b.active, ts[1..]);
    }
  }

  /** Scanning a stream in two chunks, cut after a clean one, gives the same alternate-screen
      state and the same verdict as scanning it whole. */
  lemma ChunkInsensitive(alt: bool, a: bytes, b: bytes)
    requires Clean(a, 0)
    ensures var whole := Meaning(Screen(alt, false), Tokens(a + b, 0));
            var first := Meaning(Screen(alt, false), Tokens(a, 0));
            var second := Meaning(Screen(first.alt, false), Tokens(b, 0));
            whole.alt == second.alt && whole.active == (first.active || second.active)
  {
    TokensSplit(a, b, 0);
    MeaningAppend(Screen(alt, false), Tokens(a, 0), Tokens(b, 0));
    var first := Meaning(Screen(alt, false), Tokens(a, 0));
    SeenIsSeparate(first.alt, first.active, Tokens(b, 0));
  }

  /** The cut reads the same for every continuation exactly when the first chunk is clean. */
  lemma CleanIsExact(a: bytes)
    ensures Clean(a, 0) <==> forall b :: Tokens(a + b, 0) == Tokens(a, 0) + Tokens(b, 0)
  {
    if Clean(a, 0) {
      forall b ensures Tokens(a + b, 0) == Tokens(a, 0) + Tokens(b, 0) { TokensSplit(a, b, 0); }
    } else {
      var b := DirtyChunk(a, 0);
    }
  }

  // ---- What the cut does to the screen ------------------------------------------------------

  /** Scanning a, then b, leaves the alternate-screen state and the verdict of scanning a + b. */
  ghost predicate Agrees(alt: bool, a: bytes, b: bytes) {
    var whole := Meaning(Screen(alt, false), Tokens(a + b, 0));
    var first := Meaning(Screen(alt, false), Tokens(a, 0));
    var second := Meaning(Screen(first.alt, false), Tokens(b, 0));
    whole.alt == second.alt && whole.active == (first.active || second.active)
  }

  /** Where the last token starts. */
  function LastStart(p: bytes, i: nat): (k: nat)
    requires i < |p|
    ensures i <= k < |p| && After(p, k) == |p|
    decreases |p| - i
  {
    if After(p, i) == |p| then i else LastStart(p, After(p, i))
  }

  /** All tokens but the last. */
  function Front(p: bytes, i: nat): seq<Token>
    requires i < |p|
    decreases |p| - i
  {
    if After(p, i) == |p| then [] else [At(p, i)] + Front(p, After(p, i))
  }

  /** More input changes no token but the last; the last decides whether a chunk is clean. */
  lemma {:induction false} SplitLast(a: bytes, b: bytes, i: nat)
    requires i < |a|
    ensures Tokens(a + b, i) == Front(a, i) + Tokens(a + b, LastStart(a, i))
    ensures Clean(a, i) <==> Clean(a, LastStart(a, i))
    decreases |a| - i
  {
    var j := After(a, i);
    if j < |a| {
      TokenKeeps(a, b, i);
      SplitLast(a, b, j);
      assert Tokens(a + b, i) == [At(a, i)] + Tokens(a + b, j);
      Regroup([At(a, i)], Front(a, j), Tokens(a + b, LastStart(a, j)));
    }
  }

  lemma Regroup(a: seq<Token>, b: seq<Token>, c: seq<Token>)
    ensures a + (b + c) == a + b + c
  {
  }

  /** The screen before the last token. */
  function Before(alt: bool, a: bytes): Screen
    requires a != []
  {
    Meaning(Screen(alt, false), Front(a, 0))
  }

  /** A chunk does what its last token does to the screen before it; and a longer one goes on
      from there. */
  lemma FromLast(alt: bool, a: bytes, b: bytes)
    requires a != []
    ensures Meaning(Screen(alt, false), Tokens(a, 0)) == Act(Before(alt, a), At(a, LastStart(a, 0)))
    ensures Meaning(Screen(alt, false), Tokens(a + b, 0)) == Meaning(Before(alt, a), Tokens(a + b, LastStart(a, 0)))
  {
    var k := LastStart(a, 0);
    SplitLast(a, [], 0);
    assert a + [] == a;
    MeaningAppend(Screen(alt, false), Front(a, 0), Tokens(a, k));
    StepAt(Before(alt, a), a, k);
    SplitLast(a, b, 0);
    MeaningAppend(Screen(alt, false), Front(a, 0), Tokens(a + b, k));
  }

  /** What draws does not depend on the alternate screen. */
  lemma {:induction false} DrawingIgnoresAlt(x: bool, y: bool, seen: bool, ts: seq<Token>)
    ensures Meaning(Screen(x, seen), ts).active == Meaning(Screen(y, seen), ts).active
    decreases ts
  {
    if ts != [] {
      var s, t := Act(Screen(x, seen), ts[0]), Act(Screen(y, seen), ts[0]);
      DrawingIgnoresAlt(s.alt, t.alt, s.active, ts[1..]);
    }
  }

  /** The chunk ends in a scanned CR, and something before it already drew. */
  predicate DrewBeforeReturn(a: bytes) {
    a != [] && At(a, LastStart(a, 0)).Return? && Before(false, a).active
  }

  /** After a trailing CR the two scans differ at most in whether that CR was bare. */
  lemma ReturnTail(alt: bool, a: bytes, b: bytes)
    requires a != [] && At(a, LastStart(a, 0)).Return?
    ensures Agrees(alt, a, b)
       <==> Before(alt, a).active || b == [] || b[0] != LF || Meaning(Screen(alt, false), Tokens(b, 0)).active
  {
    var k, s := LastStart(a, 0), Before(alt, a);
    FromLast(alt, a, b);
    assert k + 1 == |a|;
    StepAt(s, a + b, k);
    TokensMove(a, b, 0);
    var bare := b == [] || b[0] != LF;
    assert At(a + b, k) == Return(bare) by { if b != [] { assert (a + b)[k + 1] == b[0]; } }
    SeenIsSeparate(s.alt, s.active || bare, Tokens(b, 0));
    DrawingIgnoresAlt(s.alt, alt, false, Tokens(b, 0));
  }

  /** ESC [ ? 1049 h or l. */
  function Toggle(final: byte): bytes { [ESC, BRACKET, 63, 49, 48, 52, 57, final] }

  lemma ToggleReads(p: bytes, k: nat, final: byte)
    requires k <= |p| && p[k..] == Toggle(final) && IsToggle(final)
    ensures At(p, k) == Control(true, [49, 48, 52, 57], final) && After(p, k) == |p|
  {
    assert |p| == k + 8;
    forall j | 0 <= j < 8 ensures p[k + j] == Toggle(final)[j] { assert p[k..][j] == p[k + j]; }
    assert ParamEnd(p, k + 7) == k + 7;
    assert ParamEnd(p, k + 6) == k + 7;
    assert ParamEnd(p, k + 5) == k + 7;
    assert ParamEnd(p, k + 4) == k + 7;
    assert ParamEnd(p, k + 3) == k + 7;
    assert p[k + 3..k + 7] == [49, 48, 52, 57];
  }

  /** Bytes without CR and ESC change nothing. */
  lemma {:induction false} PlainBytes(s: Screen, p: bytes, i: nat)
    requires i <= |p| && forall j | i <= j < |p| :: p[j] != CR && p[j] != ESC
    ensures Meaning(s, Tokens(p, i)) == s
    decreases |p| - i
  {
    if i < |p| {
      StepAt(s, p, i);
      PlainBytes(s, p, i + 1);
    }
  }

  /** An ESC at the end, continued to a switch of the alternate screen: only the whole sees it. */
  lemma EscapeTail(alt: bool, a: bytes) returns (b: bytes)
    requires a != [] && At(a, LastStart(a, 0)) == Plain(ESC)
    ensures !Agrees(alt, a, b)
  {
    var k, s := LastStart(a, 0), Before(alt, a);
    var final: byte := if s.alt then 108 else 104;
    b := Toggle(final)[1..];
    FromLast(alt, a, b);
    CompletesToggle(s, a, final, k);
    PlainBytes(Screen(s.alt, false), b, 0);
  }

  lemma CompletesToggle(s: Screen, a: bytes, final: byte, k: nat)
    requires k + 1 == |a| && a[k] == ESC && IsToggle(final)
    ensures Meaning(s, Tokens(a + Toggle(final)[1..], k)) == Screen(final == 104, true)
  {
    var whole := a + Toggle(final)[1..];
    assert whole[k..] == Toggle(final);
    ToggleReads(whole, k, final);
    StepAt(s, whole, k);
  }

  /** An unfinished sequence swallows the ESC of the next one: only the second chunk sees it. */
  lemma UnfinishedTail(alt: bool, a: bytes) returns (b: bytes)
    requires a != [] && At(a, LastStart(a, 0)).Unfinished?
    ensures !Agrees(alt, a, b)
  {
    var k, s := LastStart(a, 0), Before(alt, a);
    var final: byte := if s.alt then 108 else 104;
    b := Toggle(final);
    FromLast(alt, a, b);
    SwallowsToggle(s, a, final, k);
    ToggleAlone(Screen(s.alt, false), final);
  }

  lemma SwallowsToggle(s: Screen, a: bytes, final: byte, k: nat)
    requires k < |a| && At(a, k).Unfinished? && IsToggle(final)
    ensures Meaning(s, Tokens(a + Toggle(final), k)) == s
  {
    SwallowsEscape(a, Toggle(final), k);
    StepAt(s, a + Toggle(final), k);
    PlainBytes(s, a + Toggle(final), |a| + 1);
  }

  lemma ToggleAlone(s: Screen, final: byte)
    requires IsToggle(final)
    ensures Meaning(s, Tokens(Toggle(final), 0)) == Screen(final == 104, true)
  {
    assert Toggle(final)[0..] == Toggle(final);
    ToggleReads(Toggle(final), 0, final);
    StepAt(s, Toggle(final), 0);
  }

  lemma {:induction false} ParamEndStopsAt(a: bytes, b: bytes, i: nat)
    requires i <= |a| && ParamEnd(a, i) == |a| && b != [] && !IsParam(b[0])
    ensures ParamEnd(a + b, i) == |a|
    decreases |a| - i
  {
    if i < |a| { ParamEndStopsAt(a, b, i + 1); }
  }

  lemma SwallowsEscape(a: bytes, b: bytes, k: nat)
    requires k < |a| && At(a, k).Unfinished? && b != [] && b[0] == ESC
    ensures At(a + b, k).Control? && At(a + b, k).final == ESC && After(a + b, k) == |a| + 1
  {
    assert ParamStart(a + b, k) == ParamStart(a, k);
    ParamEndStopsAt(a, b, ParamStart(a, k));
  }

  /** Exactly which chunks may be cut off without changing screen state or verdict, whatever
      follows and whatever the screen was: the clean ones, and those that end in a scanned CR
      after something that already drew. */
  lemma CutIsExact(a: bytes)
    ensures (forall alt, b :: Agrees(alt, a, b)) <==> Clean(a, 0) || DrewBeforeReturn(a)
  {
    if Clean(a, 0) {
      forall alt, b ensures Agrees(alt, a, b) { ChunkInsensitive(alt, a, b); }
    } else {
      var last := At(a, LastStart(a, 0));
      SplitLast(a, [], 0);
      if last.Return? {
        ReturnCut(a);
      } else if last.Plain? {
        var b := EscapeTail(false, a);
      } else {
        var b := UnfinishedTail(false, a);
      }
    }
  }

  lemma ReturnCut(a: bytes)
    requires a != [] && At(a, LastStart(a, 0)).Return?
    ensures (forall alt, b :: Agrees(alt, a, b)) <==> DrewBeforeReturn(a)
  {
    if DrewBeforeReturn(a) {
      forall alt, b ensures Agrees(alt, a, b) {
        DrawingIgnoresAlt(alt, false, false, Front(a, 0));
        ReturnTail(alt, a, b);
      }
    } else {
      ReturnTail(false, a, [LF]);
      PlainBytes(Screen(false, false), [LF], 0);
    }
  }

  // ---- What the tokens are ------------------------------------------------------------------

  lemma {:induction false} ParamEndIs(p: bytes, i: nat, j: nat)
    requires i <= j < |p| && !IsParam(p[j]) && forall k | i <= k < j :: IsParam(p[k])
    ensures ParamEnd(p, i) == j
    decreases j - i
  {
    if i < j { ParamEndIs(p, i + 1, j); }
  }

  /** The bytes of a control sequence: a ?, > or ! or none, digits and semicolons, and the first
      byte that is neither. */
  function Sequence(mark: Option<byte>, params: bytes, final: byte): bytes {
    [27, 91] + (if mark.Some? then [mark.value] else []) + params + [final]
  }

  /** Every such sequence, whatever follows, is read as what it is, and reading goes on after it. */
  lemma SequenceReads(mark: Option<byte>, params: bytes, final: byte, rest: bytes)
    requires mark.Some? ==> mark.value == 63 || mark.value == 62 || mark.value == 33
    requires forall i | 0 <= i < |params| :: 48 <= params[i] <= 57 || params[i] == 59
    requires !(48 <= final <= 57) && final != 59
    requires mark.None? && params == [] ==> final != 63 && final != 62 && final != 33
    ensures var p := Sequence(mark, params, final) + rest;
            At(p, 0) == Control(mark.Some?, params, final) && After(p, 0) == |Sequence(mark, params, final)|
  {
    var p := Sequence(mark, params, final) + rest;
    var i := if mark.Some? then 3 else 2;
    var j := i + |params|;
    assert p[0] == 27 && p[1] == 91;
    forall k | i <= k < j ensures p[k] == params[k - i] {}
    assert p[j] == final && p[i..j] == params;
    ParamEndIs(p, i, j);
  }

  /** What a token does: a bare CR draws; ? > ! with h or l draws, and with 1049, 47 or 1047
      switches the alternate screen; without a mark the cursor and erase finals draw; nothing
      else does anything. */
  lemma ActMeaning(s: Screen, t: Token)
    ensures var switches := t.Control? && t.private && (t.final as char == 'h' || t.final as char == 'l')
                            && (t.params == [49, 48, 52, 57] || t.params == [52, 55] || t.params == [49, 48, 52, 55]);
            Act(s, t).alt == if switches then t.final as char == 'h' else s.alt
    ensures var draws := match t
              case Return(bare) => bare
              case Control(private, _, final) => final as char in if private then "hl" else "ABCDEFGHfdJKSTsu"
              case _ => false;
            Act(s, t).active == (s.active || draws)
  {
  }
}
