/**
 The two directional fill ("wipe") routines. Each assigns one colour per pixel
 index and pushes the whole buffer to the strip after every single assignment;
 a push is recorded here as a snapshot of the buffer, in call order.
 */
module Wipe {
  import opened Pixels

  /** How a fill call ended: it ran to the end of its index range, or the
      strip's index check raised for the pixel index `index`. */
  datatype Status = Completed | IndexError(index: int)

  /** What a fill call leaves behind: the buffer, one snapshot per push in
      the order the pushes happened, and how the call ended. */
  datatype Fill = Fill(strip: Strip, writes: seq<Strip>, status: Status)

  /** Index `i` is produced by `range(pixelCount)` and names a pixel of a
      buffer of `len` pixels. */
  predicate Visits(len: nat, pixelCount: int, i: int)
  {
    0 <= i < pixelCount && i < len
  }

  /** How many indices of `range(pixelCount)` lie inside a buffer of `len`
      pixels: they are exactly the first `m` indices. */
  function Reach(len: nat, pixelCount: int): (m: nat)
    ensures forall i :: Visits(len, pixelCount, i) <==> 0 <= i < m
  {
    if pixelCount <= 0 then 0 else if pixelCount <= len then pixelCount else len
  }

  /** `after` is `before` with exactly pixel `i` set to `c`. */
  predicate OnePixel(before: Strip, after: Strip, i: int, c: Color)
  {
    0 <= i < |before| && after == before[i := c]
  }

  /** The snapshot pushed before the k-th one (the buffer as the call found it, for k = 0). */
  function Previous(strip: Strip, writes: seq<Strip>, k: nat): Strip
    requires k <= |writes|
  {
    if k == 0 then strip else writes[k - 1]
  }

  /** Reference meaning of a top-to-bottom fill: the k-th push shows pixels
      0..k in `c` and nothing else changed; an index past the buffer raises
      once every pixel of the buffer has been painted and pushed. */
  function Forward(strip: Strip, pixelCount: int, c: Color): Fill
  {
    var m := Reach(|strip|, pixelCount);
    Fill(Painted(strip, 0, m, c),
         seq(m, k requires 0 <= k < m => Painted(strip, 0, k + 1, c)),
         if pixelCount <= |strip| then Completed else IndexError(|strip|))
  }

  /** Reference meaning of a bottom-to-top fill: the k-th push shows pixels
      pixelCount-1-k .. pixelCount-1 in `c` and nothing else changed; a count
      past the buffer raises at the very first index, before any push. */
  function Backward(strip: Strip, pixelCount: int, c: Color): Fill
  {
    if pixelCount > |strip| then Fill(strip, [], IndexError(pixelCount - 1))
    else
      var m := Reach(|strip|, pixelCount);
      Fill(Painted(strip, 0, pixelCount, c),
           seq(m, k requires 0 <= k < m => Painted(strip, pixelCount - 1 - k, pixelCount, c)),
           Completed)
  }

  /** top_to_bottom: for i in range(pixelCount), set pixel i, then push. */
  method TopToBottom(strip: Strip, pixelCount: int, color: Color)
    returns (s: Strip, writes: seq<Strip>, status: Status)
    ensures Fill(s, writes, status) == Forward(strip, pixelCount, color)
    // indices change in ascending order, one per push
    ensures forall k :: 0 <= k < |writes| ==> OnePixel(Previous(strip, writes, k), writes[k], k, color)
  {
    s, writes, status := strip, [], Completed;
    var i := 0;
    while i < pixelCount
      invariant 0 <= i <= |strip|
      invariant i == 0 || i <= pixelCount
      invariant s == Painted(strip, 0, i, color)
      invariant |writes| == i
      invariant forall k :: 0 <= k < i ==> writes[k] == Painted(strip, 0, k + 1, color)
      invariant forall k :: 0 <= k < i ==> OnePixel(Previous(strip, writes, k), writes[k], k, color)
    {
      if i >= |s| {
        status := IndexError(i);
        return;
      }
      s := s[i := color];
      writes := writes + [s];
      i := i + 1;
    }
  }

  /** bottom_to_top: for i in range(pixelCount - 1, -1, -1), set pixel i, then push. */
  method BottomToTop(strip: Strip, pixelCount: int, color: Color)
    returns (s: Strip, writes: seq<Strip>, status: Status)
    ensures Fill(s, writes, status) == Backward(strip, pixelCount, color)
    // indices change in descending order, one per push
    ensures forall k :: 0 <= k < |writes| ==>
              OnePixel(Previous(strip, writes, k), writes[k], pixelCount - 1 - k, color)
  {
    s, writes, status := strip, [], Completed;
    var i := pixelCount - 1;
    while i >= 0
      invariant i <= pixelCount - 1
      invariant i == pixelCount - 1 || -1 <= i < |strip|
      invariant |writes| == pixelCount - 1 - i
      invariant |writes| > 0 ==> pixelCount <= |strip|
      invariant s == Painted(strip, i + 1, pixelCount, color)
      invariant forall k :: 0 <= k < |writes| ==>
                  writes[k] == Painted(strip, pixelCount - 1 - k, pixelCount, color)
      invariant forall k :: 0 <= k < |writes| ==>
                  OnePixel(Previous(strip, writes, k), writes[k], pixelCount - 1 - k, color)
    {
      if i >= |s| {
        status := IndexError(i);
        return;
      }
      s := s[i := color];
      writes := writes + [s];
      i := i - 1;
    }
  }

  /** Within the buffer both routines leave the same final buffer and push the
      same number of times; past it they part ways, and then agree only when
      the buffer already showed `c` everywhere. */
  lemma SameFinalStrip(strip: Strip, pixelCount: int, c: Color)
    ensures pixelCount <= |strip| ==>
              |Forward(strip, pixelCount, c).writes| == |Backward(strip, pixelCount, c).writes|
    ensures Forward(strip, pixelCount, c).strip == Backward(strip, pixelCount, c).strip
            <==> pixelCount <= |strip| || AllOf(strip, c)
  {
  }

  /** A second top-to-bottom fill over the same range overwrites the first:
      only the last colour is left. */
  lemma ForwardLastWins(strip: Strip, pixelCount: int, c: Color, d: Color)
    ensures Forward(Forward(strip, pixelCount, c).strip, pixelCount, d).strip
            == Forward(strip, pixelCount, d).strip
  {
  }

  /** A second bottom-to-top fill over the same range overwrites the first. */
  lemma BackwardLastWins(strip: Strip, pixelCount: int, c: Color, d: Color)
    ensures Backward(Backward(strip, pixelCount, c).strip, pixelCount, d).strip
            == Backward(strip, pixelCount, d).strip
  {
  }

  /** Filling twice with the same colour leaves the same buffer as filling once. */
  lemma FillIdempotent(strip: Strip, pixelCount: int, c: Color)
    ensures var f := Forward(strip, pixelCount, c).strip; Forward(f, pixelCount, c).strip == f
    ensures var b := Backward(strip, pixelCount, c).strip; Backward(b, pixelCount, c).strip == b
  {
  }

  /** Lighting a range in WHITE and then clearing it in the same direction
      leaves the range OFF and every pixel outside it as it was. */
  lemma LitThenCleared(strip: Strip, pixelCount: int)
    requires 0 <= pixelCount <= |strip|
    ensures var f := Forward(Forward(strip, pixelCount, WHITE).strip, pixelCount, OFF).strip;
            |f| == |strip| &&
            (forall i :: 0 <= i < pixelCount ==> f[i] == OFF) &&
            (forall i :: pixelCount <= i < |strip| ==> f[i] == strip[i])
    ensures Backward(Backward(strip, pixelCount, WHITE).strip, pixelCount, OFF).strip
            == Forward(Forward(strip, pixelCount, WHITE).strip, pixelCount, OFF).strip
  {
  }
}
