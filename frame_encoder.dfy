/** The frame encoder: convert_frame turns the engine's 256-pixel-stride
    ARGB8888 frame into the host's 256-pixel-stride XRGB1555 frame, touching
    only the visible 160x144 region in the top-left corner. */
module FrameEncoder {
  import opened Pixels

  /** Pixels per row in both buffers. */
  const Stride: nat := 256
  /** Visible columns and rows. */
  const Width: nat := 160
  const Height: nat := 144
  /** Pixels in one buffer (uint32_t video_buf[256 * 144], uint16_t output_video[256 * 144]). */
  const FrameLen: nat := Stride * Height

  /** The buffer position of column x in row y. */
  function Index(y: nat, x: nat): nat { y * Stride + x }

  /** Row and column are recovered from a position inside a row. */
  lemma IndexParts(y: nat, x: nat)
    requires x < Stride
    ensures Index(y, x) / Stride == y && Index(y, x) % Stride == x
  {
  }

  /** Position i lies in the visible region. */
  predicate Visible(i: nat) { i / Stride < Height && i % Stride < Width }

  /** The host buffer after a conversion: every visible pixel converted from
      the engine pixel at the same position, every other pixel kept. */
  function ConvertedFrame(before: seq<Xrgb1555>, src: seq<Argb8888>): (after: seq<Xrgb1555>)
    requires |before| == FrameLen && |src| == FrameLen
    ensures |after| == FrameLen
    ensures forall y: nat, x: nat :: y < Height && x < Width ==>
              after[Index(y, x)] == ConvertPixel(src[Index(y, x)])
    ensures forall i :: 0 <= i < FrameLen && !Visible(i) ==> after[i] == before[i]
  {
    var after := seq(FrameLen, i requires 0 <= i < FrameLen =>
                   if Visible(i) then ConvertPixel(src[i]) else before[i]);
    forall y: nat, x: nat | y < Height && x < Width
      ensures after[Index(y, x)] == ConvertPixel(src[Index(y, x)])
    {
      IndexParts(y, x);
    }
    after
  }

  /** Converting the same engine frame a second time changes nothing. */
  lemma ConvertedFrameIdempotent(before: seq<Xrgb1555>, src: seq<Argb8888>)
    requires |before| == FrameLen && |src| == FrameLen
    ensures ConvertedFrame(ConvertedFrame(before, src), src) == ConvertedFrame(before, src)
  {
  }

  /** Position i has been converted once rows 0..y-1 and columns 0..x-1 of
      row y are done. */
  predicate Done(y: nat, x: nat, i: nat) {
    Visible(i) && (i / Stride < y || (i / Stride == y && i % Stride < x))
  }

  /** convert_frame: the nested row/column loop writing `output` in place. */
  method ConvertFrame(output: array<Xrgb1555>, input: array<Argb8888>)
    requires output.Length == FrameLen && input.Length == FrameLen
    modifies output
    ensures output[..] == ConvertedFrame(old(output[..]), input[..])
  {
    for y := 0 to Height
      invariant forall i :: 0 <= i < FrameLen ==>
                  output[i] == if Done(y, 0, i) then ConvertPixel(input[i]) else old(output[i])
    {
      for x := 0 to Width
        invariant forall i :: 0 <= i < FrameLen ==>
                    output[i] == if Done(y, x, i) then ConvertPixel(input[i]) else old(output[i])
      {
        IndexParts(y, x);
        output[Index(y, x)] := ConvertPixel(input[Index(y, x)]);
      }
    }
    assert forall i :: 0 <= i < FrameLen ==> (Done(Height, 0, i) <==> Visible(i));
  }
}
