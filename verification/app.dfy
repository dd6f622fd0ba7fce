/**
  The application's processing glue: deriving the artifact paths from a base
  name, for an uploaded file and for a live recording, and running the
  transcribe / PDF / summarise steps in order. Transcription, PDF rendering
  and summarisation are abstract collaborators; their files live in a text
  store keyed by path.
 */
module App {

  import opened Wrappers
  import PosixPath
  import AudioWebrtc

  const AudioInputDir: string := "audio_input"

  /** The three artifact paths derived from one base name. */
  datatype Artifacts = Artifacts(transcript: string, pdf: string, summary: string)

  /** Everything one processing run needs: the audio file, the base name and
      the artifact paths. */
  datatype Plan = Plan(audio: string, base: string, out: Artifacts)

  /** `transcripts/B.txt`, `pdfs/B.pdf` and `summaries/B_summary.txt`. */
  function ArtifactPaths(base: string): (a: Artifacts)
    ensures |a.transcript| == |base| + 16 && |a.pdf| == |base| + 9 && |a.summary| == |base| + 22
    ensures a.transcript[..12] == "transcripts/" && a.transcript[12..|a.transcript| - 4] == base
    ensures a.pdf[..5] == "pdfs/" && a.pdf[5..|a.pdf| - 4] == base
    ensures a.summary[..10] == "summaries/" && a.summary[10..|a.summary| - 12] == base
    ensures a.transcript[|a.transcript| - 4..] == ".txt" && a.pdf[|a.pdf| - 4..] == ".pdf"
    ensures a.summary[|a.summary| - 12..] == "_summary.txt"
    ensures a.transcript != a.pdf && a.pdf != a.summary && a.transcript != a.summary
  {
    var a := Artifacts("transcripts/" + base + ".txt", "pdfs/" + base + ".pdf", "summaries/" + base + "_summary.txt");
    assert a.transcript[0] == 't' && a.pdf[0] == 'p' && a.summary[0] == 's';
    a
  }

  /** Each artifact path determines the base name it was built from. */
  lemma ArtifactPathsInjective(b1: string, b2: string)
    ensures ArtifactPaths(b1).transcript == ArtifactPaths(b2).transcript ==> b1 == b2
    ensures ArtifactPaths(b1).pdf == ArtifactPaths(b2).pdf ==> b1 == b2
    ensures ArtifactPaths(b1).summary == ArtifactPaths(b2).summary ==> b1 == b2
  {
  }

  /** Plan for an uploaded file called `name`. */
  function UploadPlan(name: string): (p: Plan)
    ensures p.audio == PosixPath.Join(AudioInputDir, name)
    ensures p.base + PosixPath.SplitExt(name).1 == name
    ensures p.out == ArtifactPaths(p.base)
  {
    var base := PosixPath.SplitExt(name).0;
    Plan(PosixPath.Join(AudioInputDir, name), base, ArtifactPaths(base))
  }

  /** An upload whose name is relative is stored directly under `audio_input/`. */
  lemma UploadStoredInAudioInput(name: string)
    requires !PosixPath.IsAbsolute(name)
    ensures UploadPlan(name).audio == "audio_input/" + name
  {
    assert PosixPath.Join(AudioInputDir, name) == AudioInputDir + [PosixPath.Sep] + name;
    assert AudioInputDir + [PosixPath.Sep] == "audio_input/";
  }

  /** Plan for a live recording: only when the finaliser returned a path that
      is not empty (`if audio_path:` treats `None` and `""` alike). */
  function LivePlan(saved: Option<string>): (r: Option<Plan>)
    ensures r.None? <==> saved.None? || saved.value == []
    ensures r.Some? ==> r.value.audio == saved.value && r.value.out == ArtifactPaths(r.value.base)
  {
    match saved
    case None => None
    case Some(path) =>
      if path == [] then None else
      var base := PosixPath.SplitExt(PosixPath.Basename(path)).0;
      Some(Plan(path, base, ArtifactPaths(base)))
  }

  /** The live branch derives base and artifact paths exactly as the upload
      branch does for a file with the recording's name. */
  lemma LiveMatchesUpload(path: string)
    ensures path != [] ==> LivePlan(Some(path)).value.base == UploadPlan(PosixPath.Basename(path)).base
    ensures path != [] ==> LivePlan(Some(path)).value.out == UploadPlan(PosixPath.Basename(path)).out
  {
  }

  /** A recording saved by the finaliser gets the base name `recorded_<token>`. */
  lemma LiveBaseIsRecorded(outputDir: string, token: string)
    requires AudioWebrtc.IsToken(token)
    ensures var r := LivePlan(Some(PosixPath.Join(outputDir, AudioWebrtc.RecordedName(token))));
            && r.Some?
            && r.value.base == "recorded_" + token
            && r.value.out == ArtifactPaths("recorded_" + token)
  {
    var name := AudioWebrtc.RecordedName(token);
    var stem := "recorded_" + token;
    var path := PosixPath.Join(outputDir, name);
    AudioWebrtc.RecordedNameShape(token);
    PosixPath.BasenameOfJoin(outputDir, name);
    PosixPath.SplitExtPlain(stem, "wav");
    assert PosixPath.SplitExt(PosixPath.Basename(path)).0 == stem;
    assert |path| >= |name| > 0;
  }

  /** One call into a collaborator: what it reads and what it writes. */
  datatype Step =
    | Transcribe(audio: string, target: string)
    | RenderPdf(source: string, target: string)
    | Summarize(source: string, target: string)

  /** Transcription (audio path to text), PDF rendering (text to document)
      and summarisation (text to text), all opaque. */
  datatype Collaborators = Collaborators(transcribe: string -> string, render: string -> string, summarize: string -> string)

  /** Text artifacts on disk, by path. */
  type TextStore = map<string, string>

  /** The steps of one processing run, in the order the application runs them. */
  function PlanSteps(p: Plan): (s: seq<Step>)
    ensures |s| == 3 && s[0] == Transcribe(p.audio, p.out.transcript)
    ensures s[1].RenderPdf? && s[1].target == p.out.pdf
    ensures s[2].Summarize? && s[2].target == p.out.summary
    ensures ReadsAfterWrites(s)
  {
    [Transcribe(p.audio, p.out.transcript), RenderPdf(p.out.transcript, p.out.pdf), Summarize(p.out.transcript, p.out.summary)]
  }

  /** Every file a step reads (other than the audio) was written by an earlier step. */
  ghost predicate ReadsAfterWrites(steps: seq<Step>) {
    forall i :: 0 <= i < |steps| && !steps[i].Transcribe? ==>
      exists j :: 0 <= j < i && steps[j].target == steps[i].source
  }

  /** Transcription runs first, then the PDF, then the summary; both later
      steps read the transcript the first one wrote. */
  lemma PlanStepsOrdered(p: Plan)
    ensures |PlanSteps(p)| == 3
    ensures PlanSteps(p)[0].Transcribe? && PlanSteps(p)[1].RenderPdf? && PlanSteps(p)[2].Summarize?
    ensures PlanSteps(p)[1].source == PlanSteps(p)[2].source == PlanSteps(p)[0].target == p.out.transcript
    ensures ReadsAfterWrites(PlanSteps(p))
  {
    var s := PlanSteps(p);
    assert s[0].target == s[1].source && s[0].target == s[2].source;
  }

  /** One step against the text store; reading a missing file fails. */
  function ExecStep(store: TextStore, s: Step, c: Collaborators): (r: Option<TextStore>)
    ensures r.None? <==> !s.Transcribe? && s.source !in store
    ensures r.Some? ==> r.value.Keys == store.Keys + {s.target}
    ensures r.Some? ==> forall k :: k in store && k != s.target ==> r.value[k] == store[k]
  {
    match s
    case Transcribe(audio, out) => Some(store[out := c.transcribe(audio)])
    case RenderPdf(src, out) => if src in store then Some(store[out := c.render(store[src])]) else None
    case Summarize(src, out) => if src in store then Some(store[out := c.summarize(store[src])]) else None
  }

  /** Steps run one after another; the first failure stops the run. */
  function RunSteps(store: TextStore, steps: seq<Step>, c: Collaborators): (r: Option<TextStore>)
    ensures r.Some? ==> forall k :: k in store ==> k in r.value
    ensures r.Some? ==> forall i :: 0 <= i < |steps| ==> steps[i].target in r.value
    ensures r.Some? ==> forall k :: k in r.value ==> k in store || exists i :: 0 <= i < |steps| && steps[i].target == k
    decreases |steps|
  {
    if |steps| == 0 then Some(store)
    else match ExecStep(store, steps[0], c)
         case None => None
         case Some(store') => RunSteps(store', steps[1..], c)
  }

  /** Steps whose reads all follow writes never fail, whatever the store. */
  lemma {:induction false} RunStepsSucceeds(store: TextStore, steps: seq<Step>, c: Collaborators, written: set<string>)
    requires written <= store.Keys
    requires forall i :: 0 <= i < |steps| && !steps[i].Transcribe? ==>
               steps[i].source in written || exists j :: 0 <= j < i && steps[j].target == steps[i].source
    ensures RunSteps(store, steps, c).Some?
    decreases |steps|
  {
    if |steps| != 0 {
      var s := steps[0];
      assert s.Transcribe? || s.source in written;
      var store' := ExecStep(store, s, c).value;
      var rest := steps[1..];
      var written' := written + {s.target};
      forall i | 0 <= i < |rest| && !rest[i].Transcribe?
        ensures rest[i].source in written' || exists j :: 0 <= j < i && rest[j].target == rest[i].source
      {
        assert steps[i + 1] == rest[i];
        if rest[i].source !in written {
          var j :| 0 <= j < i + 1 && steps[j].target == steps[i + 1].source;
          if j == 0 {
            assert rest[i].source in written';
          } else {
            assert rest[j - 1].target == rest[i].source;
          }
        }
      }
      RunStepsSucceeds(store', rest, c, written');
    }
  }

  /** Steps whose reads all follow earlier writes never fail. */
  lemma OrderedStepsSucceed(store: TextStore, steps: seq<Step>, c: Collaborators)
    requires ReadsAfterWrites(steps)
    ensures RunSteps(store, steps, c).Some?
  {
    RunStepsSucceeds(store, steps, c, {});
  }

  /** The order matters: rendering the PDF before transcribing fails when no
      transcript exists yet. */
  lemma RenderBeforeTranscribeFails(store: TextStore, p: Plan, c: Collaborators)
    requires p.out.transcript !in store
    ensures var s := PlanSteps(p);
            RunSteps(store, [s[1], s[0], s[2]], c).None?
  {
  }

  /** Running a plan leaves the transcript, the PDF of the transcript and the
      summary of the transcript at the plan's paths, and nothing else changes. */
  lemma PipelineOutcome(store: TextStore, p: Plan, c: Collaborators)
    requires p.out == ArtifactPaths(p.base)
    ensures RunSteps(store, PlanSteps(p), c).Some?
    ensures var st := RunSteps(store, PlanSteps(p), c).value;
            var t := c.transcribe(p.audio);
            && st.Keys == store.Keys + {p.out.transcript, p.out.pdf, p.out.summary}
            && st[p.out.transcript] == t
            && st[p.out.pdf] == c.render(t)
            && st[p.out.summary] == c.summarize(t)
            && forall k :: k in store && k != p.out.transcript && k != p.out.pdf && k != p.out.summary ==> st[k] == store[k]
  {
    var s := PlanSteps(p);
    var t := c.transcribe(p.audio);
    var s1 := store[p.out.transcript := t];
    var s2 := s1[p.out.pdf := c.render(t)];
    var s3 := s2[p.out.summary := c.summarize(t)];
    assert ExecStep(store, s[0], c) == Some(s1);
    assert ExecStep(s1, s[1], c) == Some(s2);
    assert ExecStep(s2, s[2], c) == Some(s3);
    assert s[1..][1..][1..] == [];
    assert RunSteps(s3, s[1..][1..][1..], c) == Some(s3);
    assert RunSteps(s2, s[1..][1..], c) == Some(s3);
    assert RunSteps(s1, s[1..], c) == Some(s3);
  }

  /** Processing an uploaded file: the steps of its plan against the text store. */
  function ProcessUpload(store: TextStore, name: string, c: Collaborators): (r: Option<TextStore>)
    ensures r.Some?
    ensures var a := ArtifactPaths(PosixPath.SplitExt(name).0);
            var t := c.transcribe(PosixPath.Join(AudioInputDir, name));
            && a.transcript in r.value && r.value[a.transcript] == t
            && a.pdf in r.value && r.value[a.pdf] == c.render(t)
            && a.summary in r.value && r.value[a.summary] == c.summarize(t)
  {
    PipelineOutcome(store, UploadPlan(name), c);
    RunSteps(store, PlanSteps(UploadPlan(name)), c)
  }

  /** State after the "Process Recording" action, with the steps that ran. */
  datatype Outcome = Outcome(audio: AudioWebrtc.AudioStore, text: TextStore, ran: seq<Step>)

  /** The "Process Recording" action: finalise the buffer, then run the plan
      only when a file was written. */
  function ProcessRecording(audio: AudioWebrtc.AudioStore, text: TextStore, frames: seq<AudioWebrtc.Frame>, token: string, c: Collaborators): (r: Outcome)
    requires AudioWebrtc.IsToken(token)
    ensures |frames| == 0 <==> r.ran == []
    ensures |frames| == 0 ==> r.audio == audio && r.text == text
  {
    var (audio', saved) := AudioWebrtc.SaveAudioFile(audio, frames, AudioWebrtc.DefaultOutputDir, token);
    match LivePlan(saved)
    case None => Outcome(audio', text, [])
    case Some(p) =>
      PipelineOutcome(text, p, c);
      Outcome(audio', RunSteps(text, PlanSteps(p), c).value, PlanSteps(p))
  }

  /** A non-empty recording is written to `audio_input/recorded_<token>.wav`,
      then transcribed, rendered and summarised under `recorded_<token>`. */
  lemma RecordingOutcome(audio: AudioWebrtc.AudioStore, text: TextStore, frames: seq<AudioWebrtc.Frame>, token: string, c: Collaborators)
    requires AudioWebrtc.IsToken(token)
    requires |frames| != 0
    ensures var r := ProcessRecording(audio, text, frames, token, c);
            var path := "audio_input/recorded_" + token + ".wav";
            var a := ArtifactPaths("recorded_" + token);
            var t := c.transcribe(path);
            && path in r.audio && r.audio[path] == AudioWebrtc.WavFile(1, 2, 48000, AudioWebrtc.Concat(frames))
            && r.ran == [Transcribe(path, a.transcript), RenderPdf(a.transcript, a.pdf), Summarize(a.transcript, a.summary)]
            && a.transcript in r.text && r.text[a.transcript] == t
            && a.pdf in r.text && r.text[a.pdf] == c.render(t)
            && a.summary in r.text && r.text[a.summary] == c.summarize(t)
  {
    var path := PosixPath.Join(AudioWebrtc.DefaultOutputDir, AudioWebrtc.RecordedName(token));
    AudioWebrtc.DefaultRecordedPath(token);
    var (audio', saved) := AudioWebrtc.SaveAudioFile(audio, frames, AudioWebrtc.DefaultOutputDir, token);
    assert saved == Some(path);
    LiveBaseIsRecorded(AudioWebrtc.DefaultOutputDir, token);
    assert path in audio' && audio'[path] == AudioWebrtc.WavFile(1, 2, 48000, AudioWebrtc.Concat(frames));
    var p := LivePlan(saved).value;
    PipelineOutcome(text, p, c);
    var text' := RunSteps(text, PlanSteps(p), c).value;
    assert ProcessRecording(audio, text, frames, token, c) == Outcome(audio', text', PlanSteps(p));
  }
}
