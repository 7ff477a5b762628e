/** `AudioGenerator.generate_audio` and `_concatenate_audio_parts`: how the prepared script is
    cut into requests and how the synthesised parts are put back together. The speech service
    is a parameter `synth` from text to MP3 bytes; decoding MP3 into a segment is left abstract,
    a decoded part being `Part(bytes)`. */
module Audio {
  import opened Strings
  import opened Rewrite
  import Speech
  import Chunking

  type byte = bv8

  /** A piece of the assembled track: a synthesised part or a silence of `ms` milliseconds. */
  datatype Clip = Part(mp3: seq<byte>) | Pause(ms: nat)

  /** The pause pydub puts between consecutive parts. */
  const GapMs: nat := 500

  /** What ends up in the output file. */
  datatype Track =
    | Direct(bytes: seq<byte>)        // one request: its bytes are saved as they are
    | Mixed(clips: seq<Clip>)         // several parts joined by pydub, then exported
    | Raw(bytes: seq<byte>)           // several parts, pydub missing: bytes written in order

  // ---------------------------------------------------------------------------
  // Assembly with pydub
  // ---------------------------------------------------------------------------

  /** `clips` is `parts` in order with a 500 ms pause between consecutive parts and none after
      the last. */
  predicate Joined(clips: seq<Clip>, parts: seq<seq<byte>>) {
    && |clips| == (if parts == [] then 0 else 2 * |parts| - 1)
    && (forall i :: 0 <= i < |parts| ==> clips[2 * i] == Part(parts[i]))
    && (forall i :: 0 <= i < |parts| - 1 ==> clips[2 * i + 1] == Pause(GapMs))
  }

  /** The parts in order, with a pause after every part but the last. */
  method JoinWithPauses(parts: seq<seq<byte>>) returns (combined: seq<Clip>)
    ensures |combined| == if parts == [] then 0 else 2 * |parts| - 1
    ensures forall i :: 0 <= i < |parts| ==> combined[2 * i] == Part(parts[i])
    ensures forall i :: 0 <= i < |parts| - 1 ==> combined[2 * i + 1] == Pause(GapMs)
  {
    combined := [];
    var i := 0;
    while i < |parts|
      invariant 0 <= i <= |parts|
      invariant |combined| == if i == 0 then 0 else if i < |parts| then 2 * i else 2 * i - 1
      invariant forall j :: 0 <= j < i ==> combined[2 * j] == Part(parts[j])
      invariant forall j :: 0 <= j < i && j < |parts| - 1 ==> combined[2 * j + 1] == Pause(GapMs)
    {
      combined := combined + [Part(parts[i])];
      if i < |parts| - 1 {
        combined := combined + [Pause(GapMs)];
      }
      i := i + 1;
    }
  }

  /** The decoded parts, pauses dropped; a pause is never first or last. */
  function PartsOf(clips: seq<Clip>): seq<seq<byte>> {
    if clips == [] then []
    else (if clips[0].Part? then [clips[0].mp3] else []) + PartsOf(clips[1..])
  }

  /** Nothing of the parts is lost or reordered by the pauses. */
  lemma {:induction false} PausesKeepParts(parts: seq<seq<byte>>, combined: seq<Clip>)
    requires |combined| == if parts == [] then 0 else 2 * |parts| - 1
    requires forall i :: 0 <= i < |parts| ==> combined[2 * i] == Part(parts[i])
    requires forall i :: 0 <= i < |parts| - 1 ==> combined[2 * i + 1] == Pause(GapMs)
    ensures PartsOf(combined) == parts
    ensures combined != [] ==> combined[0].Part? && combined[|combined| - 1].Part?
    decreases |parts|
  {
    if |parts| == 1 {
      assert combined == [Part(parts[0])];
      assert combined[1..] == [];
    } else if |parts| > 1 {
      var rest := combined[2..];
      forall i | 0 <= i < |parts| - 1 ensures rest[2 * i] == Part(parts[1..][i]) {
        assert rest[2 * i] == combined[2 * (i + 1)];
      }
      forall i | 0 <= i < |parts| - 2 ensures rest[2 * i + 1] == Pause(GapMs) {
        assert rest[2 * i + 1] == combined[2 * (i + 1) + 1];
      }
      PausesKeepParts(parts[1..], rest);
      assert combined[1..][1..] == rest;
      assert combined[1] == Pause(GapMs);
      assert [parts[0]] + parts[1..] == parts;
      assert combined[|combined| - 1] == rest[|rest| - 1];
    }
  }

  // ---------------------------------------------------------------------------
  // Assembly without pydub
  // ---------------------------------------------------------------------------

  function Flatten(parts: seq<seq<byte>>): seq<byte> {
    if parts == [] then [] else Flatten(parts[..|parts| - 1]) + parts[|parts| - 1]
  }

  /** Where part `k` starts in the flattened bytes. */
  function Offset(parts: seq<seq<byte>>, k: nat): nat
    requires k <= |parts|
  {
    |Flatten(parts[..k])|
  }

  /** `for audio_data in audio_parts: f.write(audio_data)` */
  method WriteInOrder(parts: seq<seq<byte>>) returns (written: seq<byte>)
    ensures written == Flatten(parts)
  {
    written := [];
    var i := 0;
    while i < |parts|
      invariant 0 <= i <= |parts|
      invariant written == Flatten(parts[..i])
    {
      written := written + parts[i];
      assert parts[..i + 1][..i] == parts[..i];
      i := i + 1;
    }
    assert parts[..i] == parts;
  }

  /** The bytes of the first `k` parts are a prefix of the bytes of all parts. */
  lemma {:induction false} FlattenPrefix(parts: seq<seq<byte>>, k: nat)
    requires k <= |parts|
    ensures Offset(parts, k) <= |Flatten(parts)|
    ensures Flatten(parts)[..Offset(parts, k)] == Flatten(parts[..k])
    decreases |parts|
  {
    if k < |parts| {
      var init := parts[..|parts| - 1];
      FlattenPrefix(init, k);
      assert init[..k] == parts[..k];
      assert Flatten(parts) == Flatten(init) + parts[|parts| - 1];
    } else {
      assert parts[..k] == parts;
    }
  }

  /** Each part's bytes sit, unchanged, right after the bytes of the parts before it. */
  lemma PartAtOffset(parts: seq<seq<byte>>, k: nat)
    requires k < |parts|
    ensures Offset(parts, k) + |parts[k]| == Offset(parts, k + 1) <= |Flatten(parts)|
    ensures Flatten(parts)[Offset(parts, k)..Offset(parts, k + 1)] == parts[k]
  {
    assert parts[..k + 1][..k] == parts[..k];
    FlattenPrefix(parts, k + 1);
    var f := Flatten(parts[..k + 1]);
    assert f == Flatten(parts[..k]) + parts[k];
    assert f[Offset(parts, k)..] == parts[k];
  }

  // ---------------------------------------------------------------------------
  // generate_audio
  // ---------------------------------------------------------------------------

  /** One request per chunk, in chunk order. */
  method SynthesizeAll(chunks: seq<string>, synth: string -> seq<byte>) returns (parts: seq<seq<byte>>)
    ensures |parts| == |chunks|
    ensures forall i :: 0 <= i < |chunks| ==> parts[i] == synth(chunks[i])
  {
    parts := [];
    var i := 0;
    while i < |chunks|
      invariant 0 <= i <= |chunks|
      invariant |parts| == i
      invariant forall j :: 0 <= j < i ==> parts[j] == synth(chunks[j])
    {
      parts := parts + [synth(chunks[i])];
      i := i + 1;
    }
  }

  /** The chunks `generate_audio` sends, for a given script. */
  function SpeechChunks(script: string): seq<string> {
    Chunking.SplitForSpeech(Speech.PreprocessForSpeech(script), Chunking.DefaultMaxChars)
  }

  /** The answers of the speech service to the requests, in request order. */
  function Synthesized(chunks: seq<string>, synth: string -> seq<byte>): (parts: seq<seq<byte>>)
    ensures |parts| == |chunks|
  {
    seq(|chunks|, i requires 0 <= i < |chunks| => synth(chunks[i]))
  }

  /** What is saved for the requests `chunks`: one request is saved directly; several are
      synthesised in order and assembled, with pydub (the parts joined by 500 ms pauses) or,
      without it, by writing their bytes one after the other. */
  predicate SavedTrack(chunks: seq<string>, synth: string -> seq<byte>, havePydub: bool, track: Track) {
    (|chunks| == 1 ==> track == Direct(synth(chunks[0])))
    && (|chunks| != 1 && havePydub ==>
          track.Mixed? && Joined(track.clips, Synthesized(chunks, synth))
          && PartsOf(track.clips) == Synthesized(chunks, synth))
    && (|chunks| != 1 && !havePydub ==> track == Raw(Flatten(Synthesized(chunks, synth))))
  }

  /** The part of `generate_audio` after the split, for any list of requests. */
  method AssembleTrack(chunks: seq<string>, synth: string -> seq<byte>, havePydub: bool) returns (track: Track)
    ensures SavedTrack(chunks, synth, havePydub, track)
  {
    if |chunks| == 1 {
      track := Direct(synth(chunks[0]));
    } else {
      var parts := SynthesizeAll(chunks, synth);
      assert parts == Synthesized(chunks, synth);
      if havePydub {
        var clips := JoinWithPauses(parts);
        PausesKeepParts(parts, clips);
        track := Mixed(clips);
      } else {
        var bytes := WriteInOrder(parts);
        track := Raw(bytes);
      }
    }
  }

  /** `generate_audio` once the client exists and no call fails. */
  method GenerateAudio(script: string, synth: string -> seq<byte>, havePydub: bool)
    returns (track: Track)
    ensures SavedTrack(SpeechChunks(script), synth, havePydub, track)
  {
    var text := Speech.PreprocessForSpeech(script);
    var chunks := Chunking.SplitTextForTts(text, Chunking.DefaultMaxChars);
    track := AssembleTrack(chunks, synth, havePydub);
  }

  /** When no sentence of the prepared script exceeds the budget, the requests joined with
      spaces are exactly the prepared script. */
  lemma RequestsRebuildScript(script: string)
    requires forall x :: x in Chunking.SplitSentences(Speech.PreprocessForSpeech(script)) ==>
      |x| <= Chunking.DefaultMaxChars
    ensures Join(SpeechChunks(script), " ") == Speech.PreprocessForSpeech(script)
  {
    Speech.SpeechWhitespace(script);
    Chunking.ChunksRebuildText(Speech.PreprocessForSpeech(script), Chunking.DefaultMaxChars);
  }

  /** A script whose prepared text is non-empty never sends an empty request. */
  lemma RequestsNonEmpty(script: string)
    requires Speech.PreprocessForSpeech(script) != []
    ensures forall c :: c in SpeechChunks(script) ==> c != []
  {
    Speech.SpeechWhitespace(script);
    Chunking.ChunksNonEmpty(Speech.PreprocessForSpeech(script), Chunking.DefaultMaxChars);
  }
}
