/**
  The live-capture buffer (`AudioSaver`) and its finaliser
  (`save_audio_file`). A frame is the byte content of the first plane of an
  audio frame; the written file is the abstract record of the four fields
  the finaliser sets, not WAV container bytes.
 */
module AudioWebrtc {

  import opened Wrappers
  import PosixPath

  /** The plane-0 bytes of one received audio frame. */
  type Frame = seq<bv8>

  /** The capture buffer: every frame received so far, in arrival order. */
  datatype AudioSaver = AudioSaver(frames: seq<Frame>)

  /** A freshly constructed buffer holds no frames. */
  function NewAudioSaver(): (s: AudioSaver)
    ensures |s.frames| == 0
  {
    AudioSaver([])
  }

  /** Receiving a frame appends it at the end of the buffer and hands the
      same frame back to the transport. */
  function Recv(s: AudioSaver, frame: Frame): (r: (AudioSaver, Frame))
    ensures r.1 == frame
    ensures |r.0.frames| == |s.frames| + 1
    ensures r.0.frames[..|s.frames|] == s.frames
    ensures r.0.frames[|s.frames|] == frame
  {
    (AudioSaver(s.frames + [frame]), frame)
  }

  /** The buffer after the transport has delivered `fs`, one `Recv` at a time. */
  function Deliver(s: AudioSaver, fs: seq<Frame>): AudioSaver
    decreases |fs|
  {
    if |fs| == 0 then s else Deliver(Recv(s, fs[0]).0, fs[1..])
  }

  /** Delivering frames only appends them, in delivery order. */
  lemma {:induction false} DeliverAppends(s: AudioSaver, fs: seq<Frame>)
    ensures Deliver(s, fs).frames == s.frames + fs
    decreases |fs|
  {
    if |fs| != 0 {
      var s' := Recv(s, fs[0]).0;
      DeliverAppends(s', fs[1..]);
      assert s'.frames + fs[1..] == s.frames + fs;
    }
  }

  /** A buffer built from scratch holds exactly the delivered frames, in order. */
  lemma CaptureOrder(fs: seq<Frame>)
    ensures Deliver(NewAudioSaver(), fs).frames == fs
  {
    DeliverAppends(NewAudioSaver(), fs);
  }

  /** Total number of bytes held by a sequence of frames. */
  function TotalLength(fs: seq<Frame>): nat
  {
    if |fs| == 0 then 0 else |fs[0]| + TotalLength(fs[1..])
  }

  /** `b''.join(frames)`: the frames' bytes laid end to end in order. */
  function Concat(fs: seq<Frame>): (r: seq<bv8>)
    ensures |r| == TotalLength(fs)
  {
    if |fs| == 0 then [] else fs[0] + Concat(fs[1..])
  }

  /** Joining two runs of frames joins their byte strings. */
  lemma {:induction false} ConcatAppend(a: seq<Frame>, b: seq<Frame>)
    ensures Concat(a + b) == Concat(a) + Concat(b)
    decreases |a|
  {
    if |a| != 0 {
      assert (a + b)[1..] == a[1..] + b;
      ConcatAppend(a[1..], b);
    } else {
      assert a + b == b;
    }
  }

  /** Byte offset at which frame `i` starts in the joined payload. */
  function Offset(fs: seq<Frame>, i: nat): nat
    requires i <= |fs|
  {
    TotalLength(fs[..i])
  }

  /** Order preservation: frame `i` occupies bytes `Offset(fs, i)` up to
      `Offset(fs, i + 1)` of the joined payload, unchanged. */
  lemma FrameAtOffset(fs: seq<Frame>, i: nat)
    requires i < |fs|
    ensures Offset(fs, i + 1) == Offset(fs, i) + |fs[i]| <= |Concat(fs)|
    ensures Concat(fs)[Offset(fs, i)..Offset(fs, i + 1)] == fs[i]
  {
    var before, after := fs[..i], fs[i + 1..];
    assert fs == before + [fs[i]] + after;
    ConcatAppend(before + [fs[i]], after);
    ConcatAppend(before, [fs[i]]);
    assert Concat([fs[i]]) == fs[i];
    assert fs[..i + 1] == before + [fs[i]];
  }

  /** The loop form of the byte join, proved equal to `Concat`; `SaveAudioFile`
      uses `Concat` directly. */
  method JoinSamples(frames: seq<Frame>) returns (samples: seq<bv8>)
    ensures samples == Concat(frames)
    ensures |samples| == TotalLength(frames)
  {
    samples := [];
    var i := 0;
    while i < |frames|
      invariant 0 <= i <= |frames|
      invariant samples == Concat(frames[..i])
    {
      ConcatAppend(frames[..i], [frames[i]]);
      assert frames[..i + 1] == frames[..i] + [frames[i]];
      assert Concat([frames[i]]) == frames[i];
      samples := samples + frames[i];
      i := i + 1;
    }
    assert frames[..i] == frames;
  }

  /** Header fields the finaliser always writes: mono, 16-bit, 48 kHz. */
  const NChannels: int := 1
  const SampWidth: int := 2
  const FrameRate: int := 48000

  /** The default directory the finaliser writes into. */
  const DefaultOutputDir: string := "audio_input"

  /** An audio file as the `wave` writer is told to produce it. */
  datatype WavFile = WavFile(nchannels: int, sampwidth: int, framerate: int, payload: seq<bv8>)

  /** The audio files on disk, by path. */
  type AudioStore = map<string, WavFile>

  predicate IsHexDigit(c: char) {
    '0' <= c <= '9' || 'a' <= c <= 'f'
  }

  /** The first six characters of a UUID in lower-case hex. */
  predicate IsToken(h: string) {
    |h| == 6 && forall i :: 0 <= i < |h| ==> IsHexDigit(h[i])
  }

  /** File name of a recording with random suffix `token`. */
  function RecordedName(token: string): (r: string)
    ensures |r| == |token| + 13
    ensures r[..9] == "recorded_" && r[9..|r| - 4] == token && r[|r| - 4..] == ".wav"
  {
    "recorded_" + token + ".wav"
  }

  /** A recording name is `recorded_<token>` plus the `wav` extension, and
      neither part holds a separator or a dot. */
  lemma RecordedNameShape(token: string)
    requires IsToken(token)
    ensures var stem := "recorded_" + token;
            && RecordedName(token) == stem + [PosixPath.ExtSep] + "wav"
            && PosixPath.Sep !in stem && PosixPath.ExtSep !in stem
            && PosixPath.Sep !in RecordedName(token)
  {
    var stem := "recorded_" + token;
    var name := RecordedName(token);
    assert forall i :: 0 <= i < |token| ==> token[i] != PosixPath.Sep && token[i] != PosixPath.ExtSep;
    assert PosixPath.Sep !in stem && PosixPath.ExtSep !in stem;
    assert name == stem + [PosixPath.ExtSep] + "wav";
    forall i | 0 <= i < |name|
      ensures name[i] != PosixPath.Sep
    {
      if i < |stem| { assert name[i] == stem[i]; }
    }
  }

  /** `save_audio_file(frames, outputDir)` with the random UUID prefix passed in
      as `token`: returns the updated store and the path written, if any. */
  function SaveAudioFile(store: AudioStore, frames: seq<Frame>, outputDir: string, token: string): (r: (AudioStore, Option<string>))
    requires IsToken(token)
    ensures r.1.None? <==> |frames| == 0
    ensures r.1.None? ==> r.0 == store
    ensures r.1.Some? ==>
      && r.1.value != []
      && r.1.value == PosixPath.Join(outputDir, RecordedName(token))
      && r.0.Keys == store.Keys + {r.1.value}
      && r.0[r.1.value].nchannels == 1
      && r.0[r.1.value].sampwidth == 2
      && r.0[r.1.value].framerate == 48000
      && r.0[r.1.value].payload == Concat(frames)
      && |r.0[r.1.value].payload| == TotalLength(frames)
    ensures r.1.Some? ==> forall p :: p in store && p != r.1.value ==> r.0[p] == store[p]
  {
    var path := PosixPath.Join(outputDir, RecordedName(token));
    if |frames| == 0 then
      (store, None)
    else
      (store[path := WavFile(NChannels, SampWidth, FrameRate, Concat(frames))], Some(path))
  }

  /** The header the finaliser writes does not depend on the frames. */
  lemma HeaderIndependentOfFrames(store: AudioStore, fs: seq<Frame>, gs: seq<Frame>, outputDir: string, token: string)
    requires IsToken(token)
    requires |fs| != 0 && |gs| != 0
    ensures var (a, p) := SaveAudioFile(store, fs, outputDir, token);
            var (b, q) := SaveAudioFile(store, gs, outputDir, token);
            p == q && a[p.value].nchannels == b[q.value].nchannels
                   && a[p.value].sampwidth == b[q.value].sampwidth
                   && a[p.value].framerate == b[q.value].framerate
  {
  }

  /** The written name is `recorded_<token>.wav`, whatever the directory. */
  lemma SavedNameIsRecorded(store: AudioStore, frames: seq<Frame>, outputDir: string, token: string)
    requires IsToken(token)
    requires |frames| != 0
    ensures var (_, p) := SaveAudioFile(store, frames, outputDir, token);
            PosixPath.Basename(p.value) == "recorded_" + token + ".wav"
  {
    assert forall i :: 0 <= i < |token| ==> token[i] != PosixPath.Sep;
    PosixPath.BasenameOfJoin(outputDir, RecordedName(token));
  }

  /** In the default directory the finaliser writes `audio_input/recorded_<token>.wav`. */
  lemma DefaultRecordedPath(token: string)
    ensures PosixPath.Join(DefaultOutputDir, RecordedName(token)) == "audio_input/recorded_" + token + ".wav"
  {
    assert DefaultOutputDir + [PosixPath.Sep] + RecordedName(token) == "audio_input/recorded_" + token + ".wav";
  }

  /** Three frames of 960, 960 and 480 bytes (20 ms, 20 ms and 10 ms of mono
      16-bit audio at 48 kHz) give a 2400-byte payload under the fixed header. */
  lemma ThreeFrameExample(store: AudioStore, a: Frame, b: Frame, c: Frame, token: string)
    requires IsToken(token)
    requires |a| == 960 && |b| == 960 && |c| == 480
    ensures var (st, p) := SaveAudioFile(store, [a, b, c], DefaultOutputDir, token);
            && p == Some("audio_input/recorded_" + token + ".wav")
            && st[p.value] == WavFile(1, 2, 48000, a + b + c)
            && |st[p.value].payload| == 2400
  {
    var fs := [a, b, c];
    assert fs[1..] == [b, c] && fs[1..][1..] == [c] && fs[1..][1..][1..] == [];
    assert Concat([c]) == c + Concat([]) == c;
    assert Concat([b, c]) == b + Concat([c]);
    assert Concat(fs) == a + Concat([b, c]) == a + b + c;
    DefaultRecordedPath(token);
  }

  /** The finaliser with the UUID drawn nondeterministically. */
  method SaveAudioFileFresh(store: AudioStore, frames: seq<Frame>, outputDir: string) returns (store': AudioStore, path: Option<string>)
    ensures |frames| == 0 ==> store' == store && path == None
    ensures |frames| != 0 ==>
      && path.Some?
      && (exists h :: IsToken(h) && path.value == PosixPath.Join(outputDir, RecordedName(h)))
      && store'.Keys == store.Keys + {path.value}
      && store'[path.value] == WavFile(1, 2, 48000, Concat(frames))
    ensures |frames| != 0 ==> forall q :: q in store && q != path.value ==> store'[q] == store[q]
  {
    assert IsToken("000000");
    var token :| IsToken(token);
    var r := SaveAudioFile(store, frames, outputDir, token);
    store', path := r.0, r.1;
  }
}
