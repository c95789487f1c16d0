/**
 * The image batching of `GenderVideo.__call__` and `GenderTracking.__call__`:
 * every detected face appends one info row and one face image; whenever more
 * than `batch_len` images are waiting, the first `batch_len` go to the
 * classifier; what is left at the end is flushed. The classifier is a
 * recorder of the batches it receives; each detection arrives already
 * preprocessed, as its info row paired with its face image.
 */
module Batching {
  import opened Wrappers

  /** The concatenation of the batches, in order. */
  function Concat<T>(ss: seq<seq<T>>): seq<T>
    decreases |ss|
  {
    if |ss| == 0 then [] else Concat(ss[..|ss| - 1]) + ss[|ss| - 1]
  }

  lemma {:induction false} ConcatAppend<T>(a: seq<seq<T>>, b: seq<seq<T>>)
    ensures Concat(a + b) == Concat(a) + Concat(b)
    decreases |b|
  {
    if |b| > 0 {
      var b' := b[..|b| - 1];
      assert (a + b)[..|a + b| - 1] == a + b';
      ConcatAppend(a, b');
    } else {
      assert a + b == a;
    }
  }

  /** The info rows of one frame's detections. */
  function InfoRows<R, T>(dets: seq<(R, T)>): (r: seq<R>)
    ensures |r| == |dets| && forall j | 0 <= j < |dets| :: r[j] == dets[j].0
  {
    seq(|dets|, j requires 0 <= j < |dets| => dets[j].0)
  }

  /** The face images of one frame's detections. */
  function ImagesOf<R, T>(dets: seq<(R, T)>): (r: seq<T>)
    ensures |r| == |dets| && forall j | 0 <= j < |dets| :: r[j] == dets[j].1
  {
    seq(|dets|, j requires 0 <= j < |dets| => dets[j].1)
  }

  /** `linfo` after the frames: the rows of every detection, frame by frame. */
  function Infos<R, T>(frames: seq<seq<(R, T)>>): seq<R>
    decreases |frames|
  {
    if |frames| == 0 then [] else Infos(frames[..|frames| - 1]) + InfoRows(frames[|frames| - 1])
  }

  /** Every image appended to `lbatch_img`, frame by frame. */
  function Images<R, T>(frames: seq<seq<(R, T)>>): seq<T>
    decreases |frames|
  {
    if |frames| == 0 then [] else Images(frames[..|frames| - 1]) + ImagesOf(frames[|frames| - 1])
  }

  /** Every detection of the frames, frame by frame. */
  function Faces<R, T>(frames: seq<seq<(R, T)>>): seq<(R, T)>
    decreases |frames|
  {
    if |frames| == 0 then [] else Faces(frames[..|frames| - 1]) + frames[|frames| - 1]
  }

  lemma RowsImagesAppend<R, T>(a: seq<(R, T)>, b: seq<(R, T)>)
    ensures InfoRows(a + b) == InfoRows(a) + InfoRows(b)
    ensures ImagesOf(a + b) == ImagesOf(a) + ImagesOf(b)
  {
  }

  /**
   * Rows and images are appended in lockstep: the rows and the images are
   * those of the same detections, so the `j`-th row belongs to the `j`-th
   * image and there are as many of each.
   */
  lemma {:induction false} Lockstep<R, T>(frames: seq<seq<(R, T)>>)
    ensures Infos(frames) == InfoRows(Faces(frames)) && Images(frames) == ImagesOf(Faces(frames))
    ensures |Infos(frames)| == |Images(frames)| == |Faces(frames)|
    decreases |frames|
  {
    if |frames| > 0 {
      var init := frames[..|frames| - 1];
      Lockstep(init);
      RowsImagesAppend(Faces(init), frames[|frames| - 1]);
    }
  }

  /** No image is appended iff no frame has a detection. */
  lemma {:induction false} ImagesEmpty<R, T>(frames: seq<seq<(R, T)>>)
    ensures |Images(frames)| == 0 <==> forall f | 0 <= f < |frames| :: |frames[f]| == 0
    decreases |frames|
  {
    if |frames| > 0 {
      var init := frames[..|frames| - 1];
      ImagesEmpty(init);
      assert forall f | 0 <= f < |init| :: frames[f] == init[f];
    }
  }

  /** Batches as the classifier receives them: full ones, and possibly a shorter, non-empty last one. */
  ghost predicate Batched<T>(sent: seq<seq<T>>, batchLen: int)
  {
    && (forall j | 0 <= j < |sent| :: 0 < |sent[j]| <= batchLen)
    && (forall j | 0 <= j < |sent| - 1 :: |sent[j]| == batchLen)
  }

  /**
   * So the number of classifier calls is the number of images divided by
   * `batch_len`, rounded up: one fewer call would not hold them all, and no
   * call is idle.
   */
  lemma {:induction false} BatchCount<T>(sent: seq<seq<T>>, batchLen: int)
    requires batchLen > 0 && Batched(sent, batchLen)
    ensures (|sent| - 1) * batchLen < |Concat(sent)| <= |sent| * batchLen
  {
    if |sent| > 0 {
      var full := sent[..|sent| - 1];
      assert forall j | 0 <= j < |full| :: full[j] == sent[j];
      FullCount(full, batchLen);
      assert |Concat(sent)| == |full| * batchLen + |sent[|sent| - 1]|;
      assert |sent| * batchLen == |full| * batchLen + batchLen;
    }
  }

  /** Full batches hold `batch_len` images times their number. */
  lemma {:induction false} FullCount<T>(full: seq<seq<T>>, batchLen: int)
    requires forall j | 0 <= j < |full| :: |full[j]| == batchLen
    ensures |Concat(full)| == |full| * batchLen
    decreases |full|
  {
    if |full| > 0 {
      FullCount(full[..|full| - 1], batchLen);
    }
  }

  /**
   * The `while` loop of the frame loop: send the first `batch_len` waiting
   * images while more than `batch_len` wait. Every batch sent is full; the
   * images left and those sent make up the buffer, in order; at most
   * `batch_len` are left, and (the test being `>`) a non-empty buffer is
   * never emptied.
   */
  method Drain<T>(buf: seq<T>, batchLen: int) returns (sent: seq<seq<T>>, rest: seq<T>)
    requires batchLen > 0
    ensures Concat(sent) + rest == buf
    ensures forall j | 0 <= j < |sent| :: |sent[j]| == batchLen
    ensures |rest| <= batchLen && (|buf| > 0 ==> |rest| > 0)
    ensures |buf| <= batchLen ==> sent == [] && rest == buf
  {
    sent := [];
    rest := buf;
    while |rest| > batchLen
      invariant Concat(sent) + rest == buf
      invariant forall j | 0 <= j < |sent| :: |sent[j]| == batchLen
      invariant |buf| > 0 ==> |rest| > 0
      invariant |buf| <= batchLen ==> sent == [] && rest == buf
      decreases |rest|
    {
      assert Concat(sent + [rest[..batchLen]]) == Concat(sent) + rest[..batchLen] by {
        assert (sent + [rest[..batchLen]])[..|sent|] == sent;
      }
      assert rest == rest[..batchLen] + rest[batchLen..];
      sent := sent + [rest[..batchLen]];
      rest := rest[batchLen..];
    }
  }

  /** The `for detection in ...` loop of one frame: one row and one image per detection. */
  method Collect<R, T>(dets: seq<(R, T)>, linfo: seq<R>, buf: seq<T>) returns (linfo': seq<R>, buf': seq<T>)
    ensures linfo' == linfo + InfoRows(dets) && buf' == buf + ImagesOf(dets)
  {
    linfo', buf' := linfo, buf;
    var k := 0;
    while k < |dets|
      invariant 0 <= k <= |dets|
      invariant linfo' == linfo + InfoRows(dets[..k]) && buf' == buf + ImagesOf(dets[..k])
    {
      linfo' := linfo' + [dets[k].0];
      buf' := buf' + [dets[k].1];
      k := k + 1;
    }
    assert dets[..k] == dets;
  }

  /** One iteration of the frame loop: collect the frame's detections, then send the full batches. */
  method OneFrame<R, T>(dets: seq<(R, T)>, linfo: seq<R>, sent: seq<seq<T>>, buf: seq<T>, batchLen: int)
    returns (linfo': seq<R>, sent': seq<seq<T>>, buf': seq<T>)
    requires batchLen > 0
    requires forall j | 0 <= j < |sent| :: |sent[j]| == batchLen
    ensures linfo' == linfo + InfoRows(dets)
    ensures Concat(sent') + buf' == Concat(sent) + buf + ImagesOf(dets)
    ensures forall j | 0 <= j < |sent'| :: |sent'[j]| == batchLen
    ensures |buf'| <= batchLen
  {
    var collected;
    linfo', collected := Collect(dets, linfo, buf);
    var more;
    more, buf' := Drain(collected, batchLen);
    ConcatAppend(sent, more);
    Assoc(Concat(sent), Concat(more), buf');
    Assoc(Concat(sent), buf, ImagesOf(dets));
    sent' := sent + more;
  }

  /**
   * The flush after the frame loop: the images still waiting go to the
   * classifier when there are any.
   */
  method Flush<T>(sent: seq<seq<T>>, buf: seq<T>, batchLen: int) returns (sent': seq<seq<T>>)
    requires batchLen > 0 && |buf| <= batchLen
    requires forall j | 0 <= j < |sent| :: |sent[j]| == batchLen
    ensures Concat(sent') == Concat(sent) + buf
    ensures Batched(sent', batchLen)
    ensures |sent'| == 0 <==> |sent| == 0 && |buf| == 0
  {
    sent' := sent;
    if |buf| > 0 {
      ConcatAppend(sent, [buf]);
      assert Concat([buf]) == buf by { assert [buf][..0] == []; }
      sent' := sent + [buf];
    }
  }

  /**
   * The frame loop and the final flush: the rows collected, the batches the
   * classifier received, and whether the empty-result branch is taken.
   */
  method Analyse<R, T>(frames: seq<seq<(R, T)>>, batchLen: int) returns (linfo: seq<R>, sent: seq<seq<T>>, empty: bool)
    requires batchLen > 0
    ensures linfo == Infos(frames)
    ensures Concat(sent) == Images(frames)
    ensures |linfo| == |Concat(sent)|
    ensures Batched(sent, batchLen)
    ensures empty <==> |sent| == 0
    ensures empty <==> forall f | 0 <= f < |frames| :: |frames[f]| == 0
  {
    linfo, sent := [], [];
    var buf: seq<T> := [];
    var f := 0;
    while f < |frames|
      invariant 0 <= f <= |frames|
      invariant linfo == Infos(frames[..f])
      invariant Concat(sent) + buf == Images(frames[..f])
      invariant forall j | 0 <= j < |sent| :: |sent[j]| == batchLen
      invariant |buf| <= batchLen
    {
      assert frames[..f + 1][..f] == frames[..f];
      linfo, sent, buf := OneFrame(frames[f], linfo, sent, buf, batchLen);
      f := f + 1;
    }
    assert frames[..f] == frames;
    sent := Flush(sent, buf, batchLen);
    ImagesEmpty(frames);
    Lockstep(frames);
    empty := |sent| == 0;
  }
}
