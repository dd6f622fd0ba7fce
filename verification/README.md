# Voice2Summary: capture buffer, finaliser and artifact paths in Dafny

Voice2Summary is a small web utility. It takes an uploaded audio file or a live
microphone recording and transcribes it. It then renders the transcript to a
PDF and summarises it. Most of the code is UI glue. This project models the two
parts that have checkable logic:

- **The live-capture buffer and finaliser** (`src/audio_webrtc.py`). `AudioSaver`
  keeps an append-only list of received frames. `recv` appends a frame and hands
  it back. `save_audio_file` returns `None` for an empty list. Otherwise it
  writes one mono, 16-bit, 48 kHz WAV file holding the frames' bytes in capture
  order, under the name `recorded_<6 hex>.wav`, and returns that path.
- **The artifact-path derivation and step order** (`app.py`). A base name `B`
  comes from the uploaded file name, or from the recording's file name. The
  transcript, PDF and summary paths are `transcripts/B.txt`, `pdfs/B.pdf` and
  `summaries/B_summary.txt`. Transcription runs first. The PDF and summary steps
  read the transcript it wrote. A live recording runs the steps only if the
  finaliser returned a path.

Modules:

- `wrappers.dfy`, module `Wrappers`: the `Option` type that stands for `None` or a value.
- `posix_path.dfy`, module `PosixPath`: `os.path.join`, `basename` and `splitext`,
  with the behaviour of Python's POSIX implementation. This includes the rule
  that leading dots of a file name do not start an extension.
- `audio_webrtc.dfy`, module `AudioWebrtc`: frames as `seq<bv8>` (the bytes of plane 0),
  the `AudioSaver` buffer, the byte join, and the finaliser over an abstract audio store.
  A written file is the record `WavFile(nchannels, sampwidth, framerate, payload)`.
- `app.dfy`, module `App`: plans (audio path, base, artifact paths) for both
  branches, the step trace, and its execution over a text store. The steps call
  abstract collaborators.

Modelling choices:

- The buffer is an immutable value. `Recv` returns the new buffer and the frame.
  `Deliver` stands for a run of sequential `recv` calls.
- The random part of the file name is the parameter `token` of `SaveAudioFile`.
  It must be six lower-case hex digits, as `uuid4().hex[:6]` is.
  `SaveAudioFileFresh` draws it nondeterministically.
- The file system is two maps from paths to contents. One holds audio files.
  The other holds text artifacts; the PDF's content is an abstract string.
- Transcription (`path -> text`), PDF rendering (`text -> document`) and
  summarisation (`text -> text`) are function parameters.
- The PDF and summary collaborators are assumed to fail when their input
  transcript does not exist; their source (src/text_to_pdf.py,
  src/summarizer.py) is not part of this model, so this is an assumption. A
  failing step gives `None`. `PipelineOutcome` shows this never happens for the
  application's plans. `RenderBeforeTranscribeFails` shows that the order is
  what prevents it.
- The header fields are the constants 1, 2 and 48000 whatever the frames
  contain; nothing checks the frames' real format. The model writes the same
  constants.
- `wave.open(path, 'wb')` replaces any file already at the path. The model
  replaces the store entry at that path. Six random hex digits make a clash
  unlikely, not impossible.
- Nothing ever clears `AudioSaver.frames`. The `frames` given to
  `ProcessRecording` is the whole buffer since the connection opened, so a
  second "Process Recording" saves every earlier frame again.
- The live branch's guard `if audio_path:` uses Python truthiness, so `None` and
  the empty path both skip the steps. The finaliser never returns an empty path.

## Model

| member | source | states |
|---|---|---|
| AudioWebrtc.NewAudioSaver | src/audio_webrtc.py:11-12 | a freshly constructed buffer holds no frames |
| AudioWebrtc.Recv | src/audio_webrtc.py:14-16 | receiving appends exactly the given frame at the end, leaves earlier frames unchanged, grows the buffer by one and returns the same frame |
| AudioWebrtc.DeliverAppends | src/audio_webrtc.py:14-16 | any run of receives only appends, so the buffer becomes its old frames followed by the delivered ones in delivery order |
| AudioWebrtc.CaptureOrder | src/audio_webrtc.py:10-16 | a buffer built from scratch holds exactly the delivered frames, in arrival order, with nothing dropped |
| AudioWebrtc.Concat | src/audio_webrtc.py:27 | the joined samples are as long as the sum of the frames' byte lengths |
| AudioWebrtc.ConcatAppend | src/audio_webrtc.py:27 | joining two runs of frames gives the join of the first run followed by the join of the second |
| AudioWebrtc.FrameAtOffset | src/audio_webrtc.py:27 | each frame appears unchanged in the joined samples at the offset given by the lengths of the frames before it |
| AudioWebrtc.JoinSamples | src/audio_webrtc.py:27 | the loop that joins the frames' bytes yields the in-order concatenation, of length the sum of the frame lengths |
| AudioWebrtc.RecordedName | src/audio_webrtc.py:21 | the file name is `recorded_`, then the token, then `.wav`, and is 13 characters longer than the token |
| AudioWebrtc.RecordedNameShape | src/audio_webrtc.py:21 | for a six-hex-digit token the name is the stem `recorded_<token>` plus the `wav` extension, and neither part holds a separator or a dot |
| AudioWebrtc.SaveAudioFile | src/audio_webrtc.py:18-35 | no frames gives no path and an unchanged store; otherwise exactly one file is written, at `join(output_dir, "recorded_"+token+".wav")`, the returned path, which is never empty; its header says 1 channel, sample width 2 and 48000 Hz; its payload is the in-order concatenation of the frames, of length the sum of their lengths; other files are untouched |
| AudioWebrtc.HeaderIndependentOfFrames | src/audio_webrtc.py:29-32 | for any two non-empty frame lists the written header fields are the same |
| AudioWebrtc.SavedNameIsRecorded | src/audio_webrtc.py:21-22 | the basename of the returned path is `recorded_<token>.wav` whatever the output directory |
| AudioWebrtc.DefaultRecordedPath | src/audio_webrtc.py:18-22 | with the default directory the path is `audio_input/recorded_<token>.wav` |
| AudioWebrtc.ThreeFrameExample | src/audio_webrtc.py:27-35 | frames of 960, 960 and 480 bytes give a 2400-byte payload under the header 1 / 2 / 48000 at `audio_input/recorded_<token>.wav` |
| AudioWebrtc.SaveAudioFileFresh | src/audio_webrtc.py:18-35 | with a nondeterministic six-hex-digit token: empty input writes nothing and returns no path; otherwise exactly one file is added or replaced, at the returned path, with the fixed header and the joined payload, and every other file keeps its contents |
| PosixPath.RFind | app.py:27 | the result is -1 or an index holding the character, and no later index holds it: the last occurrence, as `str.rfind` finds it inside `basename` and `splitext` |
| PosixPath.Join | src/audio_webrtc.py:22 | `b` ends the result; an absolute `b` replaces `a`; otherwise the result is `a + b` or `a + "/" + b`, and exactly `a + b` when `a` is empty or already ends in a separator, so a separator precedes `b` whenever `a` is not empty |
| PosixPath.Basename | app.py:65 | the result is the longest suffix of the path without a separator |
| PosixPath.SplitExt | app.py:27 | root and extension rebuild the path; a non-empty extension is a dot followed by neither dots nor separators |
| PosixPath.SplitExtIsExtDot | app.py:27 | an extension is split off exactly when the path has an extension dot (the last dot, after the last separator, following a non-dot character of the final component), and then the split is at that dot |
| PosixPath.SplitExtPlain | app.py:27 | `splitext(stem + "." + x)` is `(stem, "." + x)` when neither part holds a dot or a separator |
| PosixPath.BasenameOfJoin | app.py:65 | the basename of `join(a, b)` is `b` when `b` holds no separator |
| App.ArtifactPaths | app.py:28-30 | the paths are `transcripts/`, `pdfs/` and `summaries/` followed by the same base and then `.txt`, `.pdf` and `_summary.txt`, and the three are distinct |
| App.ArtifactPathsInjective | app.py:28-30 | each of the three paths determines the base it came from |
| App.UploadPlan | app.py:23-30 | the upload is stored at `join("audio_input", name)`, the base is the name with its extension removed, and the artifact paths come from that base |
| App.UploadStoredInAudioInput | app.py:23 | an upload with a relative name is stored at `audio_input/<name>` |
| App.LivePlan | app.py:62-68 | no plan exactly when the finaliser returned no path or an empty one; otherwise a plan on that audio file whose artifact paths come from its base |
| App.LiveMatchesUpload | app.py:65-68 | for a non-empty path the live branch derives base and artifact paths as the upload branch does for a file with the recording's name |
| App.LiveBaseIsRecorded | app.py:64-65 | for a finaliser-written path the live branch runs, the base is `recorded_<token>` and the artifacts are named after it |
| App.PlanSteps | app.py:32-39 | three steps: transcription of the plan's audio into its transcript path, then a PDF step and a summary step writing the plan's PDF and summary paths; every file a step reads was written by an earlier step |
| App.PlanStepsOrdered | app.py:32-39 | steps run transcribe, then PDF, then summary, and both later steps read the transcript path the first one writes |
| App.ExecStep | app.py:33-39 | a step fails exactly when it is a PDF or summary step whose transcript is missing; a successful step adds exactly its output path and leaves every other file's contents unchanged |
| App.RunSteps | app.py:32-39 | on success every existing file is still present, every step's output path is present, and no other path appears |
| App.RunStepsSucceeds | app.py:32-39 | a step list whose every read follows a write (or an existing file) never fails |
| App.OrderedStepsSucceed | app.py:32-39 | a step list whose reads all follow earlier writes runs to completion from any store |
| App.RenderBeforeTranscribeFails | app.py:32-36 | rendering the PDF before transcribing fails when no transcript exists yet |
| App.PipelineOutcome | app.py:32-39 | running a plan leaves the transcript, the PDF of that transcript and the summary of that transcript at the plan's three paths and changes no other file |
| App.ProcessUpload | app.py:22-39 | processing an upload always completes, with the transcript of `join("audio_input", name)`, its PDF and its summary under the name's base |
| App.ProcessRecording | app.py:61-77 | no steps run exactly when no frames were captured, and then neither store changes |
| App.RecordingOutcome | app.py:61-77 | a non-empty recording is written to `audio_input/recorded_<token>.wav` with the fixed header and the joined payload, then transcribed, rendered and summarised under base `recorded_<token>`, in that order |

## Left out

- Streamlit page setup, widgets, tabs, download buttons and HTML rendering (app.py:9-12, 19-20, 41-51, 79-89): UI only.
- The WebRTC streamer and asynchronous frame delivery (app.py:53-59): receives and the final snapshot are modelled as sequential. Locking and torn reads are not modelled.
- The internals of audio frames: a frame is its plane-0 bytes.
- The RIFF/WAV byte layout written by the `wave` module: a file is the four fields the finaliser sets.
- Randomness of `uuid4`: the token is a parameter or is chosen nondeterministically. Paths from different calls are not claimed to differ, since six hex digits can collide.
- Whisper model loading and inference in `transcribe_audio` (src/voice_to_text.py:4-17): an abstract `path -> text` function. Its transcript-file write is the `Transcribe` step.
- `text_to_pdf` and `summarize_transcript`: src/text_to_pdf.py and src/summarizer.py are not part of this model; they are abstract functions.
- Directory creation (app.py:15-16), writing the uploaded bytes (app.py:24-25) and real file I/O failures: file-system plumbing. The upload's storage path is modelled, its content is not.
- Ordering of uuid generation before the empty check (src/audio_webrtc.py:21-25): the unused name has no observable effect, so the model draws the token only as a parameter.
