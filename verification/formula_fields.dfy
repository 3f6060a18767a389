/** The four formula properties that map transcript fields (time, duration,
    speaker, text): when the editor hides them, and which item it offers
    as the formula's template. Each property spells out its own copy of
    both callbacks in ww-config.js; the copies are modelled one per field. */
module FormulaFields {
  import opened Wrappers
  import opened ItemLabel

  /** The value of the `transcript` property: an array whose entries may
      be null, or any value that is not an array. */
  datatype TranscriptValue = NotAnArray | ArrayOf(entries: seq<Option<Item>>)

  datatype FormulaField = TimeField | DurationField | SpeakerField | TextField

  /** The `options` callback: the template offered while editing the
      formula is the first transcript entry, and there is none (`null`)
      unless the transcript is a non-empty array. */
  function TemplateOf(field: FormulaField, transcript: TranscriptValue): (r: Option<Option<Item>>)
    ensures r.Some? <==> transcript.ArrayOf? && transcript.entries != []
    ensures r.Some? ==> r.value == transcript.entries[0]
  {
    match field
    case TimeField =>
      if transcript.ArrayOf? && |transcript.entries| > 0 then Some(transcript.entries[0]) else None
    case DurationField =>
      if transcript.ArrayOf? && |transcript.entries| > 0 then Some(transcript.entries[0]) else None
    case SpeakerField =>
      if transcript.ArrayOf? && |transcript.entries| > 0 then Some(transcript.entries[0]) else None
    case TextField =>
      if transcript.ArrayOf? && |transcript.entries| > 0 then Some(transcript.entries[0]) else None
  }

  /** The `hidden` callback. `transcriptBound` is the truthiness of
      `boundProps.transcript`. The field is hidden exactly when there is
      no template to show or the transcript is not bound. */
  function Hidden(field: FormulaField, transcript: TranscriptValue, transcriptBound: bool): (r: bool)
    ensures r <==> TemplateOf(field, transcript).None? || !transcriptBound
  {
    match field
    case TimeField =>
      !transcript.ArrayOf? || |transcript.entries| == 0 || !transcriptBound
    case DurationField =>
      !transcript.ArrayOf? || |transcript.entries| == 0 || !transcriptBound
    case SpeakerField =>
      !transcript.ArrayOf? || |transcript.entries| == 0 || !transcriptBound
    case TextField =>
      !transcript.ArrayOf? || |transcript.entries| == 0 || !transcriptBound
  }

  /** The four copies of each callback agree. */
  lemma CopiesAgree(f: FormulaField, g: FormulaField, transcript: TranscriptValue, transcriptBound: bool)
    ensures Hidden(f, transcript, transcriptBound) == Hidden(g, transcript, transcriptBound)
    ensures TemplateOf(f, transcript) == TemplateOf(g, transcript)
  {
  }

  /** A field that is shown always has the first transcript entry as its
      template, and the transcript is bound. */
  lemma ShownHasTemplate(f: FormulaField, transcript: TranscriptValue, transcriptBound: bool)
    requires !Hidden(f, transcript, transcriptBound)
    ensures transcriptBound
    ensures transcript.ArrayOf? && |transcript.entries| > 0
    ensures TemplateOf(f, transcript) == Some(transcript.entries[0])
  {
  }
}
