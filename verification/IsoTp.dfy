/** ISO-TP segmentation as an independent definition: what frames one payload is cut into
    (ISO 15765-2:2016, section 9.6). The sender, the formatter and the scanner are each
    compared with it. */
module IsoTp {
  import opened CanTypes

  /** Frames carry 6 payload bytes in the first frame and up to 7 in each consecutive one. */
  function FrameCount(length: nat): nat {
    if length <= 7 then 1 else 1 + length / 7
  }

  /** How much of a payload the first `frames` frames of it carry. */
  function Carried(length: nat, frames: nat): nat {
    if frames == 0 then 0
    else if 7 * frames - 1 < length then 7 * frames - 1 else length
  }

  function Padded(bytes: seq<byte>): (r: seq<byte>)
    requires |bytes| <= 8
    ensures |r| == 8 && r[..|bytes|] == bytes
  {
    bytes + seq(8 - |bytes|, _ => 0)
  }

  /** The data bytes of the k-th frame of `payload`. */
  function SegmentAt(payload: seq<byte>, k: nat): (r: seq<byte>)
    requires k < FrameCount(|payload|)
    ensures |r| == 8
  {
    if |payload| <= 7 then Padded([|payload|] + payload)
    else if k == 0 then [0x10 + |payload| / 256 % 16, |payload| % 256] + payload[..6]
    else Padded([0x20 + k % 16] + payload[Carried(|payload|, k)..Carried(|payload|, k + 1)])
  }

  function Segment(payload: seq<byte>): (r: seq<seq<byte>>)
    ensures |r| == FrameCount(|payload|)
    ensures forall k :: 0 <= k < |r| ==> r[k] == SegmentAt(payload, k)
  {
    seq(FrameCount(|payload|), k requires 0 <= k < FrameCount(|payload|) => SegmentAt(payload, k))
  }

  /** The payload bytes inside one frame of a segmented answer, padding excluded. */
  function ChunkAt(payload: seq<byte>, k: nat): seq<byte>
    requires k < FrameCount(|payload|)
  {
    payload[Carried(|payload|, k)..Carried(|payload|, k + 1)]
  }

  /** Consecutive chunks fit together without gap or overlap. */
  lemma {:induction false} ChunksAreThePayload(payload: seq<byte>, k: nat)
    requires |payload| > 7
    requires k <= FrameCount(|payload|)
    ensures Flatten(seq(k, i requires 0 <= i < k => ChunkAt(payload, i))) == payload[..Carried(|payload|, k)]
  {
    if k > 0 {
      var parts := seq(k, i requires 0 <= i < k => ChunkAt(payload, i));
      assert parts[..k - 1] == seq(k - 1, i requires 0 <= i < k - 1 => ChunkAt(payload, i));
      ChunksAreThePayload(payload, k - 1);
    }
  }

  function Flatten<T>(parts: seq<seq<T>>): seq<T> {
    if |parts| == 0 then [] else Flatten(parts[..|parts| - 1]) + parts[|parts| - 1]
  }

  lemma AllFramesCarryAll(length: nat)
    requires length > 7
    ensures Carried(length, FrameCount(length)) == length
    ensures forall k :: 0 <= k < FrameCount(length) ==> Carried(length, k) < length
  {
  }
}
