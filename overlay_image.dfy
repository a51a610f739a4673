/**
 * overlayImage: alpha-blend a four-channel foreground onto a copy of the
 * background, clipped to the top-left intersection of the two images.
 *
 * Images are continuous 8-bit cv::Mats: the byte of row y, column x and
 * channel c sits at y * step + x * channels + c, with step = cols * channels.
 * The blend is computed on reals and truncated to a byte, as the double to
 * unsigned char conversion of the assignment does.
 */
module OverlayImage {
  import opened IndexArithmetic

  newtype byte = b: int | 0 <= b < 256

  datatype ByteMat = ByteMat(rows: nat, cols: nat, channels: nat, data: seq<byte>)
  {
    /** Bytes per row of a continuous matrix. */
    function Step(): nat { cols * channels }

    predicate Valid() { |data| == rows * Step() }

    predicate InPixel(y: int, x: int, c: int) {
      0 <= y < rows && 0 <= x < cols && 0 <= c < channels
    }

    function Pos(y: nat, x: nat, c: nat): nat {
      y * Step() + x * channels + c
    }

    function At(y: nat, x: nat, c: nat): byte
      requires Valid() && InPixel(y, x, c)
    {
      PosInRange(this, y, x, c);
      data[Pos(y, x, c)]
    }
  }

  /** Every in-range coordinate addresses a byte of the buffer. */
  lemma {:induction false} PosInRange(m: ByteMat, y: nat, x: nat, c: nat)
    requires m.InPixel(y, x, c)
    ensures m.Pos(y, x, c) < m.rows * m.Step()
  {
    Gap(x, m.cols, m.channels);
    Gap(y, m.rows, m.Step());
  }

  /** Distinct coordinates address distinct bytes. */
  lemma {:induction false} PosInjective(m: ByteMat, y: nat, x: nat, c: nat, y': nat, x': nat, c': nat)
    requires m.InPixel(y, x, c) && m.InPixel(y', x', c')
    requires m.Pos(y, x, c) == m.Pos(y', x', c')
    ensures y == y' && x == x' && c == c'
  {
    var row := ByteMat(1, m.cols, m.channels, []);
    PosInRange(row, 0, x, c);
    PosInRange(row, 0, x', c');
    assert y * m.Step() + (x * m.channels + c) == y' * m.Step() + (x' * m.channels + c');
    UniqueSplit(m.Step(), y, x * m.channels + c, y', x' * m.channels + c');
    UniqueSplit(m.channels, x, c, x', c');
  }

  /** The opacity byte of a foreground pixel: its fourth channel. */
  function Alpha(fg: ByteMat, y: nat, x: nat): byte
    requires fg.Valid() && fg.channels >= 4 && y < fg.rows && x < fg.cols
  {
    fg.At(y, x, 3)
  }

  /**
   * One blended channel: bg * (1 - a/255) + fg * a/255 on reals, truncated
   * to a byte. It lies between the background and the foreground value.
   */
  function Blend(b: byte, f: byte, a: byte): (v: byte)
    ensures b <= f ==> b <= v <= f
    ensures f <= b ==> f <= v <= b
  {
    var mixed := Mix(b, f, a as real / 255.0);
    MixAsFraction(b, f, a);
    FloorOfFraction(Numerator(b, f, a as int));
    if b <= f then
      NumeratorBetween(b, f, a as int);
      mixed.Floor as byte
    else
      NumeratorBetween(f, b, 255 - a as int);
      assert Numerator(f, b, 255 - a as int) == Numerator(b, f, a as int);
      mixed.Floor as byte
  }

  /** The blend on reals, before the conversion back to a byte. */
  function Mix(b: byte, f: byte, opacity: real): real {
    b as real * (1.0 - opacity) + f as real * opacity
  }

  /** 255 times the blend: an integer. */
  function Numerator(b: byte, f: byte, a: int): int {
    b as int * (255 - a) + f as int * a
  }

  lemma MixAsFraction(b: byte, f: byte, a: byte)
    ensures Mix(b, f, a as real / 255.0) == Numerator(b, f, a as int) as real / 255.0
  {
  }

  /** Truncating n / 255 on reals is integer division by 255. */
  lemma FloorOfFraction(n: int)
    ensures (n as real / 255.0).Floor == n / 255
  {
    var q, r := n / 255, n % 255;
    assert n == 255 * q + r && 0 <= r < 255;
    assert n as real / 255.0 == q as real + r as real / 255.0;
  }

  lemma NumeratorBetween(b: byte, f: byte, a: int)
    requires 0 <= a <= 255 && b <= f
    ensures b as int <= Numerator(b, f, a) / 255 <= f as int
  {
    var lo, hi := b as int, f as int;
    var n := Numerator(b, f, a);
    assert n == 255 * lo + (hi - lo) * a;
    MulMono(0, a, hi - lo);
    MulMono(a, 255, hi - lo);
    DivBetween(n, lo, hi);
  }

  lemma DivBetween(n: int, lo: int, hi: int)
    requires 255 * lo <= n <= 255 * hi
    ensures lo <= n / 255 <= hi
  {
  }

  /** What overlayImage demands of its images. */
  predicate Compatible(bg: ByteMat, fg: ByteMat) {
    bg.Valid() && fg.Valid() && fg.channels >= 4 && bg.channels <= fg.channels
  }

  /** What overlayImage leaves in output channel c of pixel (y, x). */
  function Expected(bg: ByteMat, fg: ByteMat, y: nat, x: nat, c: nat): byte
    requires Compatible(bg, fg)
    requires bg.InPixel(y, x, c)
  {
    if y < fg.rows && x < fg.cols && Alpha(fg, y, x) > 0 then
      Blend(bg.At(y, x, c), fg.At(y, x, c), Alpha(fg, y, x))
    else
      bg.At(y, x, c)
  }

  /** Byte (y, x, c) of a buffer laid out like `bg`. */
  function CellOf(bg: ByteMat, s: seq<byte>, y: nat, x: nat, c: nat): byte
    requires bg.Valid() && |s| == |bg.data| && bg.InPixel(y, x, c)
  {
    PosInRange(bg, y, x, c);
    s[bg.Pos(y, x, c)]
  }

  /** (y, x, c) comes before (y0, x0, c0) in the loops' row, column, channel order. */
  ghost predicate Before(y: nat, x: nat, c: nat, y0: nat, x0: nat, c0: nat) {
    y < y0 || (y == y0 && (x < x0 || (x == x0 && c < c0)))
  }

  /** The loops have finished every byte before (y0, x0, c0) and touched none after it. */
  ghost predicate Progress(bg: ByteMat, fg: ByteMat, s: seq<byte>, y0: nat, x0: nat, c0: nat)
    requires Compatible(bg, fg)
  {
    && |s| == |bg.data|
    && forall y: nat, x: nat, c: nat | bg.InPixel(y, x, c) ::
         CellOf(bg, s, y, x, c) == if Before(y, x, c, y0, x0, c0) then Expected(bg, fg, y, x, c) else bg.At(y, x, c)
  }

  lemma ProgressBlend(bg: ByteMat, fg: ByteMat, s: seq<byte>, y0: nat, x0: nat, c0: nat)
    requires Compatible(bg, fg) && Progress(bg, fg, s, y0, x0, c0)
    requires bg.InPixel(y0, x0, c0) && y0 < fg.rows && x0 < fg.cols && Alpha(fg, y0, x0) > 0
    ensures bg.Pos(y0, x0, c0) < |s|
    ensures Progress(bg, fg, s[bg.Pos(y0, x0, c0) := Expected(bg, fg, y0, x0, c0)], y0, x0, c0 + 1)
  {
    PosInRange(bg, y0, x0, c0);
    var v := Expected(bg, fg, y0, x0, c0);
    var s' := s[bg.Pos(y0, x0, c0) := v];
    forall y: nat, x: nat, c: nat | bg.InPixel(y, x, c)
      ensures CellOf(bg, s', y, x, c)
        == if Before(y, x, c, y0, x0, c0 + 1) then Expected(bg, fg, y, x, c) else bg.At(y, x, c)
    {
      if (y, x, c) == (y0, x0, c0) {
        assert CellOf(bg, s', y, x, c) == v;
      } else {
        OtherCell(bg, s, v, y0, x0, c0, y, x, c);
        assert Before(y, x, c, y0, x0, c0 + 1) == Before(y, x, c, y0, x0, c0);
      }
    }
  }

  /** Overwriting the byte of one coordinate leaves every other coordinate's byte alone. */
  lemma OtherCell(bg: ByteMat, s: seq<byte>, v: byte, y0: nat, x0: nat, c0: nat, y: nat, x: nat, c: nat)
    requires bg.Valid() && |s| == |bg.data| && bg.InPixel(y0, x0, c0) && bg.InPixel(y, x, c)
    requires (y, x, c) != (y0, x0, c0)
    ensures bg.Pos(y0, x0, c0) < |s|
    ensures CellOf(bg, s[bg.Pos(y0, x0, c0) := v], y, x, c) == CellOf(bg, s, y, x, c)
  {
    PosInRange(bg, y0, x0, c0);
    PosInRange(bg, y, x, c);
    var i, j := bg.Pos(y0, x0, c0), bg.Pos(y, x, c);
    if i == j {
      PosInjective(bg, y, x, c, y0, x0, c0);
      assert false;
    }
    assert s[i := v][j] == s[j];
  }

  lemma ProgressPixelDone(bg: ByteMat, fg: ByteMat, s: seq<byte>, y0: nat, x0: nat)
    requires Compatible(bg, fg) && Progress(bg, fg, s, y0, x0, bg.channels)
    ensures Progress(bg, fg, s, y0, x0 + 1, 0)
  {
    forall y: nat, x: nat, c: nat | bg.InPixel(y, x, c)
      ensures Before(y, x, c, y0, x0, bg.channels) == Before(y, x, c, y0, x0 + 1, 0)
    {
    }
  }

  lemma ProgressTransparent(bg: ByteMat, fg: ByteMat, s: seq<byte>, y0: nat, x0: nat)
    requires Compatible(bg, fg) && Progress(bg, fg, s, y0, x0, 0)
    requires y0 < fg.rows && x0 < fg.cols && Alpha(fg, y0, x0) == 0
    ensures Progress(bg, fg, s, y0, x0 + 1, 0)
  {
  }

  lemma ProgressRowDone(bg: ByteMat, fg: ByteMat, s: seq<byte>, y0: nat)
    requires Compatible(bg, fg) && Progress(bg, fg, s, y0, bg.cols, 0)
    ensures Progress(bg, fg, s, y0 + 1, 0, 0)
  {
  }

  /** The column loop breaks once it leaves the foreground: the rest of the row stays background. */
  lemma ProgressColumnsBeyond(bg: ByteMat, fg: ByteMat, s: seq<byte>, y0: nat, x0: nat)
    requires Compatible(bg, fg) && Progress(bg, fg, s, y0, x0, 0) && x0 >= fg.cols
    ensures Progress(bg, fg, s, y0, bg.cols, 0)
  {
  }

  /** The row loop breaks once it leaves the foreground: the remaining rows stay background. */
  lemma ProgressRowsBeyond(bg: ByteMat, fg: ByteMat, s: seq<byte>, y0: nat)
    requires Compatible(bg, fg) && Progress(bg, fg, s, y0, 0, 0) && y0 >= fg.rows
    ensures Progress(bg, fg, s, bg.rows, 0, 0)
  {
  }

  /**
   * overlayImage(): copy the background, then blend every pixel of the
   * intersection whose foreground opacity is positive.
   */
  method Overlay(background: ByteMat, foreground: ByteMat) returns (output: ByteMat)
    requires Compatible(background, foreground)
    ensures output.rows == background.rows && output.cols == background.cols
    ensures output.channels == background.channels && output.Valid()
    ensures forall y: nat, x: nat, c: nat | background.InPixel(y, x, c) ::
      output.At(y, x, c) == Expected(background, foreground, y, x, c)
  {
    var bg, fg := background, foreground;
    var out := new byte[|bg.data|](i requires 0 <= i < |bg.data| => bg.data[i]);
    assert out[..] == bg.data;
    var fY := 0;
    while fY < bg.rows
      invariant 0 <= fY <= bg.rows
      invariant Progress(bg, fg, out[..], fY, 0, 0)
    {
      if fY >= fg.rows {
        ProgressRowsBeyond(bg, fg, out[..], fY);
        fY := bg.rows;
        break;
      }
      var fX := 0;
      while fX < bg.cols
        invariant 0 <= fX <= bg.cols
        invariant Progress(bg, fg, out[..], fY, fX, 0)
      {
        if fX >= fg.cols {
          ProgressColumnsBeyond(bg, fg, out[..], fY, fX);
          fX := bg.cols;
          break;
        }
        PosInRange(fg, fY, fX, 3);
        var opacity := fg.data[fg.Pos(fY, fX, 3)];
        var c := 0;
        while opacity > 0 && c < bg.channels
          invariant 0 <= c <= bg.channels
          invariant opacity == 0 ==> c == 0
          invariant Progress(bg, fg, out[..], fY, fX, c)
        {
          PosInRange(fg, fY, fX, c);
          PosInRange(bg, fY, fX, c);
          var foregroundPx := fg.data[fg.Pos(fY, fX, c)];
          var backgroundPx := bg.data[bg.Pos(fY, fX, c)];
          ProgressBlend(bg, fg, out[..], fY, fX, c);
          out[bg.Pos(fY, fX, c)] := Blend(backgroundPx, foregroundPx, opacity);
          c := c + 1;
        }
        if opacity > 0 {
          ProgressPixelDone(bg, fg, out[..], fY, fX);
        } else {
          ProgressTransparent(bg, fg, out[..], fY, fX);
        }
        fX := fX + 1;
      }
      ProgressRowDone(bg, fg, out[..], fY);
      fY := fY + 1;
    }
    output := ByteMat(bg.rows, bg.cols, bg.channels, out[..]);
    assert forall y: nat, x: nat, c: nat | bg.InPixel(y, x, c) :: output.At(y, x, c) == CellOf(bg, out[..], y, x, c);
  }

  // ==== Properties of the blend ====

  /** A fully opaque foreground pixel replaces the background in every channel. */
  lemma {:induction false} OpaqueTakesForeground(bg: ByteMat, fg: ByteMat, y: nat, x: nat, c: nat)
    requires Compatible(bg, fg)
    requires bg.InPixel(y, x, c) && y < fg.rows && x < fg.cols && Alpha(fg, y, x) == 255
    ensures Expected(bg, fg, y, x, c) == fg.At(y, x, c)
  {
    var b, f := bg.At(y, x, c), fg.At(y, x, c);
    MixAsFraction(b, f, 255);
    assert Numerator(b, f, 255) == 255 * f as int;
    FloorOfFraction(Numerator(b, f, 255));
  }

  /** A fully transparent foreground pixel leaves every channel as the background had it. */
  lemma TransparentKeepsBackground(bg: ByteMat, fg: ByteMat, y: nat, x: nat, c: nat)
    requires Compatible(bg, fg)
    requires bg.InPixel(y, x, c) && y < fg.rows && x < fg.cols && Alpha(fg, y, x) == 0
    ensures Expected(bg, fg, y, x, c) == bg.At(y, x, c)
  {
  }

  /** Outside the foreground's rows or columns the output is the background. */
  lemma OutsideForegroundKeepsBackground(bg: ByteMat, fg: ByteMat, y: nat, x: nat, c: nat)
    requires Compatible(bg, fg)
    requires bg.InPixel(y, x, c) && (y >= fg.rows || x >= fg.cols)
    ensures Expected(bg, fg, y, x, c) == bg.At(y, x, c)
  {
  }

  /** Every output channel lies between the background and the foreground channel. */
  lemma ChannelBetween(bg: ByteMat, fg: ByteMat, y: nat, x: nat, c: nat)
    requires Compatible(bg, fg)
    requires bg.InPixel(y, x, c) && y < fg.rows && x < fg.cols
    ensures var v, b, f := Expected(bg, fg, y, x, c), bg.At(y, x, c), fg.At(y, x, c);
      (b <= f ==> b <= v <= f) && (f <= b ==> f <= v <= b)
  {
  }
}
