/** The half-block QR renderer of runner/cmd/onlytty/qr.go: two rows of modules per line of
    text, inside a quiet zone of four light modules. */
module Qr {
  const QUIET := 4

  /** A module is dark only inside the symbol. */
  datatype Code = Code(size: nat, dark: (int, int) -> bool) {
    predicate Black(x: int, y: int) {
      0 <= x < size && 0 <= y < size && dark(x, y)
    }
  }

  // The glyphs are named top-bottom; a lit half of a glyph is a light module.
  const BLACK_BLACK: char := ' '
  const BLACK_WHITE: char := '\U{2584}'
  const WHITE_BLACK: char := '\U{2580}'
  const WHITE_WHITE: char := '\U{2588}'

  /** What a scanner sees in one half of a character cell. */
  predicate Lit(glyph: char, lower: bool) {
    glyph == WHITE_WHITE || glyph == if lower then BLACK_WHITE else WHITE_BLACK
  }

  /** Half-row r of the printed lines. */
  predicate LitAt(lines: seq<string>, x: nat, r: nat)
    requires r / 2 < |lines| && x < |lines[r / 2]|
  {
    Lit(lines[r / 2][x], r % 2 == 1)
  }

  function Repeat(glyph: char, n: nat): string { seq(n, _ => glyph) }

  ghost predicate Wide(c: Code, lines: seq<string>) {
    forall i | 0 <= i < |lines| :: |lines[i]| == c.size + 2 * QUIET
  }

  /** The first n half-rows show the symbol, shifted by the quiet zone, and light around it. */
  ghost predicate Shows(c: Code, lines: seq<string>, n: nat)
    requires Wide(c, lines)
  {
    && n <= 2 * |lines|
    && forall r: nat, x: nat | r < n && x < c.size + 2 * QUIET ::
         LitAt(lines, x, r) <==> !c.Black(x - QUIET, r - QUIET)
  }

  ghost predicate LowerUnlit(line: string) {
    forall x | 0 <= x < |line| :: !Lit(line[x], true)
  }

  lemma ShowsMore(c: Code, lines: seq<string>, n: nat, line: string)
    requires Wide(c, lines) && Shows(c, lines, n) && n == 2 * |lines|
    requires |line| == c.size + 2 * QUIET
    requires forall x: nat | x < |line| ::
      (Lit(line[x], false) <==> !c.Black(x - QUIET, n - QUIET)) && (Lit(line[x], true) <==> !c.Black(x - QUIET, n + 1 - QUIET))
    ensures Wide(c, lines + [line]) && Shows(c, lines + [line], n + 2)
  {
    var more := lines + [line];
    forall r: nat, x: nat | r < n + 2 && x < c.size + 2 * QUIET
      ensures LitAt(more, x, r) <==> !c.Black(x - QUIET, r - QUIET)
    {
      if r < n {
        assert more[r / 2] == lines[r / 2];
        assert LitAt(lines, x, r) <==> !c.Black(x - QUIET, r - QUIET);
      } else {
        assert more[r / 2] == line;
      }
    }
  }

  method WriteRow(c: Code, y: nat) returns (line: string)
    requires y <= c.size
    ensures |line| == c.size + 2 * QUIET
    ensures forall x: nat | x < |line| ::
      (Lit(line[x], false) <==> !c.Black(x - QUIET, y)) && (Lit(line[x], true) <==> !c.Black(x - QUIET, y + 1))
  {
    line := Repeat(WHITE_WHITE, QUIET);
    for x := 0 to c.size + 1
      invariant |line| == QUIET + x
      invariant forall k: nat | k < |line| ::
        (Lit(line[k], false) <==> !c.Black(k - QUIET, y)) && (Lit(line[k], true) <==> !c.Black(k - QUIET, y + 1))
    {
      var top := c.Black(x, y);
      var bottom := false;
      if y + 1 < c.size {
        bottom := c.Black(x, y + 1);
      }
      var glyph := WHITE_WHITE;
      if top && bottom {
        glyph := BLACK_BLACK;
      } else if top && !bottom {
        glyph := BLACK_WHITE;
      } else if !top && bottom {
        glyph := WHITE_BLACK;
      }
      line := line + [glyph];
    }
    line := line + Repeat(WHITE_WHITE, QUIET - 1);
  }

  /** Every printed half-row but the last is the symbol's, moved by four in both directions;
      the last is unlit. A symbol of odd size has exactly four light rows below it. */
  method WriteHalfBlockCode(c: Code) returns (lines: seq<string>)
    ensures Wide(c, lines) && lines != []
    ensures 2 * |lines| - 1 == c.size + 2 * QUIET + if c.size % 2 == 1 then 0 else 1
    ensures Shows(c, lines, 2 * |lines| - 1)
    ensures LowerUnlit(lines[|lines| - 1])
  {
    lines := [];
    var blank := Repeat(WHITE_WHITE, c.size + QUIET * 2);
    for i := 0 to QUIET / 2
      invariant |lines| == i && Wide(c, lines) && Shows(c, lines, 2 * i)
    {
      ShowsMore(c, lines, 2 * i, blank);
      lines := lines + [blank];
    }
    var y := 0;
    while y <= c.size
      invariant y % 2 == 0 && y <= c.size + 2
      invariant 2 * |lines| == QUIET + y && Wide(c, lines) && Shows(c, lines, 2 * |lines|)
    {
      var line := WriteRow(c, y);
      ShowsMore(c, lines, 2 * |lines|, line);
      lines := lines + [line];
      y := y + 2;
    }
    ghost var drawn := |lines|;
    for i := 0 to QUIET / 2 - 1
      invariant |lines| == drawn + i && Wide(c, lines) && Shows(c, lines, 2 * |lines|)
    {
      ShowsMore(c, lines, 2 * |lines|, blank);
      lines := lines + [blank];
    }
    var last := Repeat(WHITE_BLACK, c.size + QUIET * 2);
    ghost var before := lines;
    lines := lines + [last];
    forall r: nat, x: nat | r < 2 * |lines| - 1 && x < c.size + 2 * QUIET
      ensures LitAt(lines, x, r) <==> !c.Black(x - QUIET, r - QUIET)
    {
      if r < 2 * |before| {
        assert lines[r / 2] == before[r / 2];
        assert LitAt(before, x, r) <==> !c.Black(x - QUIET, r - QUIET);
      } else {
        assert lines[r / 2] == last;
      }
    }
  }

  /** The picture determines the symbol: nothing is lost and nothing else is drawn. */
  lemma PictureIsTheCode(c: Code, d: Code, lines: seq<string>, x: nat, y: nat)
    requires c.size == d.size && x < c.size && y < c.size
    requires Wide(c, lines) && 2 * |lines| > c.size + 2 * QUIET
    requires Shows(c, lines, 2 * |lines| - 1) && Shows(d, lines, 2 * |lines| - 1)
    ensures c.Black(x, y) <==> d.Black(x, y)
  {
    assert LitAt(lines, x + QUIET, y + QUIET) <==> !c.Black(x, y);
    assert LitAt(lines, x + QUIET, y + QUIET) <==> !d.Black(x, y);
  }
}
