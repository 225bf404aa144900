/**
 * The playback core of the visualizer (src/playback.rs): the track queue,
 * the decoded sample buffer with its read cursor, the packet loop that fills
 * the buffer, and the body of the audio output callback, which drains the
 * buffer into the device's output slice and feeds the same samples to the
 * visualizer in slices of 512.
 *
 * Samples are an abstract type `S` (the device format and the `f32`
 * conversions are not modelled); `silence` is the sample the callback writes
 * once the buffer is exhausted. Queued paths are an abstract type `P`;
 * opening, probing and reading the file at a path is the function `media`.
 */
module Playback {
  import opened Wrappers
  import opened Seqs
  import Arith

  /** Samples handed to the visualizer per `pcm_add_float` call. */
  const ChunkSize: nat := 512

  /** What `decoder.decode(&packet)` yields. */
  datatype DecodeStep<S> =
    | Decoded(block: seq<S>)   // the packet's samples, interleaved
    | DecodeIoError            // Error::IoError
    | DecodeCorrupt            // Error::DecodeError: one corrupt packet
    | DecodeFailed             // any other error

  /** What one `next_packet()` yields; a packet carries what decoding it yields. */
  datatype ReadStep<S> =
    | Packet(trackId: nat, decode: DecodeStep<S>)
    | ReadIoError          // Error::IoError, also the way the end of the stream is reported
    | ReadResetRequired    // Error::ResetRequired
    | ReadFailed           // any other error

  /**
   * An opened file: the id of its default track and the successive results
   * of `next_packet()`. Running out of `packets` stands for the I/O error
   * with which the reader reports the end of the stream.
   */
  datatype Media<S> = Media(defaultTrack: nat, packets: seq<ReadStep<S>>)

  /** How the packet loop ends. */
  datatype Decode<S> =
    | Completed(samples: seq<S>)   // the loop broke out; `samples` is what it collected
    | Unimplemented                // `unimplemented!()` on ResetRequired
    | Panicked                     // `panic!` on any other error

  function Min(a: nat, b: nat): nat
  {
    if a <= b then a else b
  }

  /** `prefix` collected before a loop that ended in `d`. */
  function Prepend<S>(prefix: seq<S>, d: Decode<S>): Decode<S>
  {
    if d.Completed? then Completed(prefix + d.samples) else d
  }

  lemma PrependPrepend<S>(a: seq<S>, b: seq<S>, d: Decode<S>)
    ensures Prepend(a, Prepend(b, d)) == Prepend(a + b, d)
  {
    if d.Completed? {
      assert a + (b + d.samples) == (a + b) + d.samples;
    }
  }

  /** The packet loop of `play_track`, read as a fold over the reader's results. */
  function DecodeTrack<S>(packets: seq<ReadStep<S>>, track: nat): Decode<S>
  {
    if packets == [] then Completed([])
    else
      match packets[0]
      case ReadIoError => Completed([])
      case ReadResetRequired => Unimplemented
      case ReadFailed => Panicked
      case Packet(id, step) =>
        if id != track then DecodeTrack(packets[1..], track)
        else
          match step
          case Decoded(block) => Prepend(block, DecodeTrack(packets[1..], track))
          case DecodeIoError => Completed([])
          case DecodeCorrupt => DecodeTrack(packets[1..], track)
          case DecodeFailed => Panicked
  }

  /** The packet loop as the source runs it: grow the sample vector until a break. */
  method DecodeLoop<S>(packets: seq<ReadStep<S>>, track: nat) returns (d: Decode<S>)
    ensures d == DecodeTrack(packets, track)
  {
    var samples: seq<S> := [];
    var i := 0;
    while true
      invariant 0 <= i <= |packets|
      invariant Prepend(samples, DecodeTrack(packets[i..], track)) == DecodeTrack(packets, track)
      decreases |packets| - i
    {
      if i == |packets| {
        assert samples + [] == samples;
        break;
      }
      var step := packets[i];
      assert packets[i..][1..] == packets[i + 1..];
      i := i + 1;
      match step
      case ReadIoError =>
        assert samples + [] == samples;
        break;
      case ReadResetRequired =>
        return Unimplemented;
      case ReadFailed =>
        return Panicked;
      case Packet(id, decoded) =>
        if id != track {
          continue;
        }
        match decoded
        case Decoded(block) =>
          PrependPrepend(samples, block, DecodeTrack(packets[i..], track));
          samples := samples + block;
        case DecodeIoError =>
          assert samples + [] == samples;
          break;
        case DecodeCorrupt =>
          continue;
        case DecodeFailed =>
          return Panicked;
    }
    d := Completed(samples);
  }

  /** A reader result after which the loop goes on to the next packet. */
  predicate Continues<S>(step: ReadStep<S>, track: nat)
  {
    step.Packet? && (step.trackId != track || step.decode.Decoded? || step.decode.DecodeCorrupt?)
  }

  /** The samples of the default track's successfully decoded packets, in order. */
  function Kept<S>(packets: seq<ReadStep<S>>, track: nat): seq<S>
  {
    if packets == [] then []
    else
      var p := packets[0];
      (if p.Packet? && p.trackId == track && p.decode.Decoded? then p.decode.block else [])
      + Kept(packets[1..], track)
  }

  /** Packets the loop goes past contribute exactly their decoded blocks. */
  lemma {:induction false} DecodeThroughContinuing<S>(ps: seq<ReadStep<S>>, rest: seq<ReadStep<S>>, track: nat)
    requires forall i :: 0 <= i < |ps| ==> Continues(ps[i], track)
    ensures DecodeTrack(ps + rest, track) == Prepend(Kept(ps, track), DecodeTrack(rest, track))
  {
    if ps == [] {
      assert ps + rest == rest;
      var d := DecodeTrack(rest, track);
      assert d.Completed? ==> [] + d.samples == d.samples;
    } else {
      assert (ps + rest)[0] == ps[0];
      assert (ps + rest)[1..] == ps[1..] + rest;
      DecodeThroughContinuing(ps[1..], rest, track);
      var p := ps[0];
      var head := if p.Packet? && p.trackId == track && p.decode.Decoded? then p.decode.block else [];
      PrependPrepend(head, Kept(ps[1..], track), DecodeTrack(rest, track));
      if !(p.Packet? && p.trackId == track && p.decode.Decoded?) {
        var d := DecodeTrack(rest, track);
        assert d.Completed? ==> [] + (Kept(ps[1..], track) + d.samples) == Kept(ps[1..], track) + d.samples;
      }
    }
  }

  /**
   * The loop ends at the first result it does not go past: an I/O error keeps
   * the samples collected so far, ResetRequired reaches `unimplemented!()`,
   * any other error panics.
   */
  lemma DecodeStopsAt<S>(ps: seq<ReadStep<S>>, stop: ReadStep<S>, rest: seq<ReadStep<S>>, track: nat)
    requires forall i :: 0 <= i < |ps| ==> Continues(ps[i], track)
    ensures stop.ReadIoError? || (stop.Packet? && stop.trackId == track && stop.decode.DecodeIoError?) ==>
              DecodeTrack(ps + [stop] + rest, track) == Completed(Kept(ps, track))
    ensures stop.ReadResetRequired? ==> DecodeTrack(ps + [stop] + rest, track) == Unimplemented
    ensures stop.ReadFailed? || (stop.Packet? && stop.trackId == track && stop.decode.DecodeFailed?) ==>
              DecodeTrack(ps + [stop] + rest, track) == Panicked
  {
    assert ps + [stop] + rest == ps + ([stop] + rest);
    DecodeThroughContinuing(ps, [stop] + rest, track);
    assert ([stop] + rest)[1..] == rest;
    assert Kept(ps, track) + [] == Kept(ps, track);
  }

  /** When the reader runs out without an error, every kept block is in the buffer. */
  lemma DecodeToEnd<S>(ps: seq<ReadStep<S>>, track: nat)
    requires forall i :: 0 <= i < |ps| ==> Continues(ps[i], track)
    ensures DecodeTrack(ps, track) == Completed(Kept(ps, track))
  {
    assert ps + [] == ps;
    DecodeThroughContinuing(ps, [], track);
    assert Kept(ps, track) + [] == Kept(ps, track);
  }

  /** A packet of another track, or a corrupt packet, changes nothing wherever it appears. */
  lemma {:induction false} DecodeSkips<S>(ps: seq<ReadStep<S>>, skipped: ReadStep<S>, rest: seq<ReadStep<S>>, track: nat)
    requires skipped.Packet? && (skipped.trackId != track || skipped.decode.DecodeCorrupt?)
    ensures DecodeTrack(ps + [skipped] + rest, track) == DecodeTrack(ps + rest, track)
  {
    if ps == [] {
      assert ps + [skipped] + rest == [skipped] + rest;
      assert ([skipped] + rest)[1..] == rest;
      assert ps + rest == rest;
    } else {
      assert (ps + [skipped] + rest)[0] == ps[0];
      assert (ps + rest)[0] == ps[0];
      assert (ps + [skipped] + rest)[1..] == ps[1..] + [skipped] + rest;
      assert (ps + rest)[1..] == ps[1..] + rest;
      DecodeSkips(ps[1..], skipped, rest, track);
    }
  }

  /** `n` silent samples. */
  function Silence<S>(n: nat, silence: S): seq<S>
  {
    seq(n, _ => silence)
  }

  /** What one callback with `k` output slots writes when the cursor is at `pos`. */
  function Window<S>(data: seq<S>, pos: nat, k: nat, silence: S): seq<S>
  {
    seq(k, i requires 0 <= i < k => if pos + i < |data| then data[pos + i] else silence)
  }

  /** Where the cursor is after that callback: it moves only over real samples. */
  function Advance(len: nat, pos: nat, k: nat): nat
  {
    if pos < len then pos + Min(k, len - pos) else pos
  }

  /**
   * A callback copies the samples that remain, up to `k` of them, then pads
   * with silence; the cursor moves by exactly the number copied.
   */
  lemma WindowSplit<S>(data: seq<S>, pos: nat, k: nat, silence: S)
    requires pos <= |data|
    ensures Advance(|data|, pos, k) == pos + Min(k, |data| - pos) <= |data|
    ensures Window(data, pos, k, silence)
            == data[pos..Advance(|data|, pos, k)] + Silence(k - Min(k, |data| - pos), silence)
  {
    var m := Min(k, |data| - pos);
    var w := Window(data, pos, k, silence);
    var v := data[pos..pos + m] + Silence(k - m, silence);
    assert |w| == |v|;
    forall i | 0 <= i < k
      ensures w[i] == v[i]
    {
      if i < m {
        assert v[i] == data[pos..pos + m][i];
      } else {
        assert v[i] == Silence(k - m, silence)[i - m];
      }
    }
  }

  /** Once the buffer is exhausted a callback writes only silence and the cursor stays put. */
  lemma WindowExhausted<S>(data: seq<S>, k: nat, silence: S)
    ensures Window(data, |data|, k, silence) == Silence(k, silence)
    ensures Advance(|data|, |data|, k) == |data|
  {
  }

  /**
   * Two callbacks in a row write what one callback over both output slices
   * would: no sample is skipped or repeated between callbacks.
   */
  lemma WindowConsecutive<S>(data: seq<S>, pos: nat, k1: nat, k2: nat, silence: S)
    requires pos <= |data|
    ensures Window(data, pos, k1, silence) + Window(data, Advance(|data|, pos, k1), k2, silence)
            == Window(data, pos, k1 + k2, silence)
    ensures Advance(|data|, Advance(|data|, pos, k1), k2) == Advance(|data|, pos, k1 + k2)
  {
    var p1 := Advance(|data|, pos, k1);
    var w := Window(data, pos, k1, silence) + Window(data, p1, k2, silence);
    var v := Window(data, pos, k1 + k2, silence);
    assert |w| == |v|;
    forall i | 0 <= i < k1 + k2
      ensures w[i] == v[i]
    {
      if i >= k1 {
        assert w[i] == Window(data, p1, k2, silence)[i - k1];
      }
    }
  }

  /** Rust's `slice.chunks(n)`: consecutive slices of `n`, the last one possibly shorter. */
  function Chunks<S>(s: seq<S>, n: nat): seq<seq<S>>
    requires n > 0
    decreases |s|
  {
    if s == [] then []
    else if |s| <= n then [s]
    else [s[..n]] + Chunks(s[n..], n)
  }

  /**
   * The visualizer receives ceil(|s| / n) slices whose in-order concatenation
   * is `s`; every slice but the last holds exactly `n` samples, and the last
   * holds between 1 and `n`.
   */
  lemma {:induction false} ChunksReassemble<S>(s: seq<S>, n: nat)
    requires n > 0
    ensures Flatten(Chunks(s, n)) == s
    ensures |Chunks(s, n)| == (|s| + n - 1) / n
    ensures forall i :: 0 <= i < |Chunks(s, n)| - 1 ==> |Chunks(s, n)[i]| == n
    ensures Chunks(s, n) != [] ==> 0 < |Chunks(s, n)[|Chunks(s, n)| - 1]| <= n
  {
    if s == [] {
    } else if |s| <= n {
      assert Flatten([s]) == s + Flatten([]);
      assert (|s| + n - 1) / n == 1;
    } else {
      var tail := Chunks(s[n..], n);
      ChunksReassemble(s[n..], n);
      assert Chunks(s, n) == [s[..n]] + tail;
      assert ([s[..n]] + tail)[1..] == tail;
      assert Flatten(Chunks(s, n)) == s[..n] + Flatten(tail);
      assert s[..n] + s[n..] == s;
      assert |s| + n - 1 == (|s[n..]| + n - 1) + n;
      Arith.DivShift(|s[n..]| + n - 1, n);
    }
  }

  /** The `for chunk in pcm_data.chunks(512)` loop: one `pcm_add_float` call per slice. */
  method ForwardToVisualizer<S>(pcm: seq<S>) returns (calls: seq<seq<S>>)
    ensures calls == Chunks(pcm, ChunkSize)
    ensures Flatten(calls) == pcm
    ensures |calls| == (|pcm| + ChunkSize - 1) / ChunkSize
  {
    calls := [];
    var i := 0;
    while i < |pcm|
      invariant 0 <= i <= |pcm|
      invariant calls + Chunks(pcm[i..], ChunkSize) == Chunks(pcm, ChunkSize)
    {
      var rest := pcm[i..];
      var end := if |pcm| - i <= ChunkSize then |pcm| else i + ChunkSize;
      if |rest| > ChunkSize {
        assert rest[..ChunkSize] == pcm[i..end];
        assert rest[ChunkSize..] == pcm[end..];
        assert Chunks(rest, ChunkSize) == [pcm[i..end]] + Chunks(pcm[end..], ChunkSize);
      } else {
        assert pcm[end..] == [] && rest == pcm[i..end];
        assert Chunks(pcm[end..], ChunkSize) == [];
        assert [rest] + [] == [rest];
      }
      calls := calls + [pcm[i..end]];
      i := end;
    }
    assert pcm[i..] == [];
    assert calls + [] == calls;
    ChunksReassemble(pcm, ChunkSize);
  }

  /**
   * The playback state of the application: the queue, the index of the
   * current track, the decoded buffer and the read cursor the output
   * callback advances.
   */
  class Playback<P, S> {
    var queue: seq<P>
    var currentTrackIndex: Option<nat>
    var audioData: seq<S>
    var audioPosition: nat
    /** The device sample that `T::from_f32(0.0)` yields. */
    const silence: S
    /** Opening, probing and reading a queued file. */
    const media: P -> Media<S>

    /** The cursor stays inside the buffer and the current index inside the queue. */
    ghost predicate Valid()
      reads this
    {
      && audioPosition <= |audioData|
      && (currentTrackIndex.Some? ==> currentTrackIndex.value < |queue|)
    }

    /** The outcome of the packet loop on the file at `path`. */
    function DecodeFile(path: P): Decode<S>
    {
      DecodeTrack(media(path).packets, media(path).defaultTrack)
    }

    /** `Playback::new` without the device setup: empty queue, empty buffer. */
    constructor (silence: S, media: P -> Media<S>)
      ensures Valid()
      ensures queue == [] && currentTrackIndex == None
      ensures audioData == [] && audioPosition == 0
      ensures this.silence == silence && this.media == media
    {
      queue := [];
      currentTrackIndex := None;
      audioData := [];
      audioPosition := 0;
      this.silence := silence;
      this.media := media;
    }

    /**
     * The body of the output callback: fill `output` from the cursor,
     * silence once the buffer is exhausted, then forward the filled slice to
     * the visualizer; `fed` lists the slices of the `pcm_add_float` calls.
     */
    method OutputCallback(output: array<S>) returns (fed: seq<seq<S>>)
      requires Valid()
      modifies this`audioPosition, output
      ensures Valid()
      ensures output[..] == Window(audioData, old(audioPosition), output.Length, silence)
      ensures audioPosition == Advance(|audioData|, old(audioPosition), output.Length)
      ensures fed == Chunks(output[..], ChunkSize)
    {
      var i := 0;
      while i < output.Length
        invariant 0 <= i <= output.Length
        invariant audioPosition == Advance(|audioData|, old(audioPosition), i)
        invariant forall j :: 0 <= j < i ==>
                    output[j] == if old(audioPosition) + j < |audioData| then audioData[old(audioPosition) + j] else silence
      {
        if audioPosition < |audioData| {
          output[i] := audioData[audioPosition];
          audioPosition := audioPosition + 1;
        } else {
          output[i] := silence;
        }
        i := i + 1;
      }
      assert output[..] == Window(audioData, old(audioPosition), output.Length, silence);
      fed := ForwardToVisualizer(output[..]);
    }

    /**
     * `play_track`: an index outside the queue changes nothing; otherwise the
     * file is decoded and, when the loop completes, its samples replace the
     * buffer, the cursor returns to 0 and the index becomes current. The
     * result reports the decode, or `None` when the index is out of range.
     */
    method PlayTrack(index: nat) returns (outcome: Option<Decode<S>>)
      requires Valid()
      modifies this`audioData, this`audioPosition, this`currentTrackIndex
      ensures Valid()
      ensures queue == old(queue)
      ensures outcome == if index < |queue| then Some(DecodeFile(queue[index])) else None
      ensures if outcome.Some? && outcome.value.Completed?
              then audioData == outcome.value.samples && audioPosition == 0 && currentTrackIndex == Some(index)
              else audioData == old(audioData) && audioPosition == old(audioPosition)
                   && currentTrackIndex == old(currentTrackIndex)
    {
      if index < |queue| {
        var file := media(queue[index]);
        var d := DecodeLoop(file.packets, file.defaultTrack);
        outcome := Some(d);
        if d.Completed? {
          audioData := d.samples;
          audioPosition := 0;
          currentTrackIndex := Some(index);
        }
      } else {
        outcome := None;
      }
    }

    /**
     * `add_files`: append the paths to the queue, then play the first track
     * when nothing is current and the queue is not empty.
     */
    method AddFiles(files: seq<P>)
      requires Valid()
      modifies this`queue, this`audioData, this`audioPosition, this`currentTrackIndex
      ensures Valid()
      ensures queue == old(queue) + files
      ensures if old(currentTrackIndex).None? && queue != [] && DecodeFile(queue[0]).Completed?
              then audioData == DecodeFile(queue[0]).samples && audioPosition == 0 && currentTrackIndex == Some(0)
              else audioData == old(audioData) && audioPosition == old(audioPosition)
                   && currentTrackIndex == old(currentTrackIndex)
    {
      queue := queue + files;
      if currentTrackIndex.None? && queue != [] {
        var outcome := PlayTrack(0);
      }
    }
  }
}
