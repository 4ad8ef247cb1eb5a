/** Which types of stream events do what, by their concrete names: what ends the stream
    with an error, and what fills in text and items. */
module StreamKinds {
  import opened Models
  import opened EventStream
  import Text

  /** The type of an event that carries one, or else the name on its event line. */
  predicate HasType(f: Frame, e: StreamEvent, kind: string) {
    match e.kind
    case Some(given) => if Text.TrimSpace(given) != "" then Text.TrimSpace(given) == kind else f.event == kind
    case None => kind == "<nil>"
  }

  lemma TypeIsType(f: Frame, e: StreamEvent, kind: string)
    ensures TypeOf(f.event, e) == kind <==> HasType(f, e, kind)
  {
    Text.TrimmedIsFixed("<nil>");
  }

  /** A type that reports failure. */
  ghost predicate Fails(kind: string) {
    kind == "error" || exists stem: string :: kind == stem + ".failed"
  }

  lemma FailsIsFailure(kind: string)
    ensures IsFailure(kind) <==> Fails(kind)
  {
    if HasSuffix(kind, ".failed") {
      assert kind == kind[..|kind| - 7] + ".failed";
    }
    if stem: string :| kind == stem + ".failed" {
      assert kind[|stem|..] == ".failed";
    }
  }

  /** The event reports a failure, by its type or by an error field, or is no event. */
  ghost predicate Spoils(f: Frame, decode: Decoder) {
    match decode(f.payload)
    case None => true
    case Some(e) => e.hasError || exists kind :: HasType(f, e, kind) && Fails(kind)
  }

  lemma SpoilsIsRejected(f: Frame, decode: Decoder)
    ensures Spoils(f, decode) <==> PartOf(f, decode).Rejected?
  {
    var decoded := decode(f.payload);
    if decoded.Some? {
      var kind := TypeOf(f.event, decoded.value);
      TypeIsType(f, decoded.value, kind);
      FailsIsFailure(kind);
      forall other | HasType(f, decoded.value, other) ensures other == kind {
        TypeIsType(f, decoded.value, other);
      }
    }
  }

  ghost predicate AnySpoils(frames: seq<Frame>, decode: Decoder) {
    exists i :: 0 <= i < |frames| && Spoils(frames[i], decode)
  }

  lemma FirstOrRest(frames: seq<Frame>, decode: Decoder)
    requires frames != []
    ensures AnySpoils(frames, decode) <==> Spoils(frames[0], decode) || AnySpoils(frames[1..], decode)
  {
    if i :| 0 <= i < |frames[1..]| && Spoils(frames[1..][i], decode) {
      assert Spoils(frames[i + 1], decode);
    }
    if i :| 0 <= i < |frames| && Spoils(frames[i], decode) {
      assert i == 0 || frames[1..][i - 1] == frames[i];
    }
  }

  lemma {:induction false} OneSpoilsAll(acc: Acc, frames: seq<Frame>, decode: Decoder)
    ensures AddedAll(acc, frames, decode).Err? <==> AnySpoils(frames, decode)
    decreases |frames|
  {
    if frames != [] {
      AddedGrows(acc, frames[0], decode);
      SpoilsIsRejected(frames[0], decode);
      FirstOrRest(frames, decode);
      var first := AddedFrame(acc, frames[0], decode);
      if first.Ok? {
        OneSpoilsAll(first.value, frames[1..], decode);
      }
    }
  }

  /** The error an event that spoils the stream leaves: its payload, with or without an
      event in it. */
  function Complaint(f: Frame, decode: Decoder): Error {
    if decode(f.payload).None? then BadPayload(f.payload) else ProviderError(f.payload)
  }

  ghost predicate SpoilsFirst(frames: seq<Frame>, decode: Decoder, i: nat) {
    && i < |frames| && Spoils(frames[i], decode)
    && forall j :: 0 <= j < i ==> !Spoils(frames[j], decode)
  }

  /** The error told is that of the first event that spoils the stream. */
  lemma {:induction false} FirstFailureTold(acc: Acc, frames: seq<Frame>, decode: Decoder, i: nat)
    requires SpoilsFirst(frames, decode, i)
    ensures AddedAll(acc, frames, decode) == Err(Complaint(frames[i], decode))
    decreases |frames|
  {
    AddedGrows(acc, frames[0], decode);
    SpoilsIsRejected(frames[0], decode);
    if i > 0 {
      assert !Spoils(frames[0], decode);
      forall j | 0 <= j < i - 1 ensures !Spoils(frames[1..][j], decode) {
        assert frames[1..][j] == frames[j + 1];
      }
      FirstFailureTold(AddedFrame(acc, frames[0], decode).value, frames[1..], decode, i - 1);
    }
  }

  /** The frames of a text that is read as a stream. */
  function FramesIn(text: string): seq<Frame> {
    Frames(ClassifyAll(Lines(text)), "", [])
  }

  predicate IsStream(text: string) {
    var trimmed := Text.TrimSpace(text);
    trimmed != "" && trimmed[0] != '{' && trimmed[0] != '['
  }

  /** A stream yields a response only if none of its events reports a failure: an event of
      type "error", or one whose type ends in ".failed", or with an error, never comes
      with a response. */
  lemma FailureNeverAnswers(text: string, decode: Decoder, i: nat)
    requires IsStream(text) && i < |FramesIn(text)| && Spoils(FramesIn(text)[i], decode)
    ensures Normalized(text, decode).Err?
  {
    OneSpoilsAll(NOTHING, FramesIn(text), decode);
  }

  // ---------------------------------------------------------------------
  // Concrete types
  // ---------------------------------------------------------------------

  const TEXT_DONE := "response.output_text.done"
  const ITEM_DONE := "response.output_item.done"
  const COMPLETED := "response.completed"

  lemma {:induction false} ContainsFrom(s: string, part: string)
    requires Contains(s, part)
    ensures exists i :: 0 <= i <= |s| && HasPrefix(s[i..], part)
  {
    if HasPrefix(s, part) {
      assert s[0..] == s;
    } else {
      ContainsFrom(s[1..], part);
      var i :| 0 <= i <= |s[1..]| && HasPrefix(s[1..][i..], part);
      assert s[1..][i..] == s[i + 1..];
    }
  }

  lemma PartHasLetter(s: string, part: string, j: nat)
    requires Contains(s, part) && j < |part|
    ensures exists i :: j <= i < |s| && s[i] == part[j]
  {
    ContainsFrom(s, part);
    var i :| 0 <= i <= |s| && HasPrefix(s[i..], part);
    assert s[i..][j] == s[i + j];
  }

  /** A text in two pieces, of which the second lacks the part's j-th letter and the first
      is too short for it, does not hold the part. */
  lemma MissingLetter(head: string, tail: string, part: string, j: nat)
    requires |head| <= j < |part| && part[j] !in tail
    ensures !Contains(head + tail, part)
  {
    forall i | j <= i < |head + tail| ensures (head + tail)[i] != part[j] {
      assert tail[i - |head|] in tail;
    }
    if Contains(head + tail, part) {
      PartHasLetter(head + tail, part, j);
    }
  }

  lemma TextDoneOnly()
    ensures !IsTextDelta(TEXT_DONE) && !IsItemDone(TEXT_DONE)
  {
    assert "" + TEXT_DONE == TEXT_DONE;
    assert 'l' !in "response.output_text.done" && 'i' !in "response.output_text.done";
    assert "output_text.delta"[14] == 'l' && "output_item.done"[7] == 'i';
    MissingLetter("", TEXT_DONE, "output_text.delta", 14);
    MissingLetter("", TEXT_DONE, "output_item.done", 7);
  }

  lemma TextDone()
    ensures IsTextDone(TEXT_DONE)
  {
    assert TEXT_DONE[9..] == "output_text.done";
    ContainsAt(TEXT_DONE, "output_text.done", 9);
  }

  lemma ItemDoneOnly()
    ensures !IsTextDelta(ITEM_DONE) && !IsTextDone(ITEM_DONE)
  {
    assert "" + ITEM_DONE == ITEM_DONE;
    assert 'x' !in "response.output_item.done";
    assert "output_text.delta"[9] == 'x' && "output_text.done"[9] == 'x';
    MissingLetter("", ITEM_DONE, "output_text.delta", 9);
    MissingLetter("", ITEM_DONE, "output_text.done", 9);
  }

  lemma ItemDone()
    ensures IsItemDone(ITEM_DONE)
  {
    assert ITEM_DONE[9..] == "output_item.done";
    ContainsAt(ITEM_DONE, "output_item.done", 9);
  }

  lemma TextDeltaOnly()
    ensures !IsTextDone(DELTA_KIND) && !IsItemDone(DELTA_KIND)
  {
    assert "response" + ".output_text.delta" == DELTA_KIND;
    assert 'n' !in ".output_text.delta" && 'i' !in "response.output_text.delta";
    assert "output_text.done"[14] == 'n' && "output_item.done"[7] == 'i';
    assert "" + DELTA_KIND == DELTA_KIND;
    MissingLetter("response", ".output_text.delta", "output_text.done", 14);
    MissingLetter("", DELTA_KIND, "output_item.done", 7);
  }

  lemma CompletedIsNeither()
    ensures !IsTextDelta(COMPLETED) && !IsTextDone(COMPLETED) && !IsItemDone(COMPLETED)
  {
    assert "" + COMPLETED == COMPLETED && 'u' !in "response.completed";
    assert "output_text.delta"[1] == 'u' && "output_text.done"[1] == 'u' && "output_item.done"[1] == 'u';
    MissingLetter("", COMPLETED, "output_text.delta", 1);
    MissingLetter("", COMPLETED, "output_text.done", 1);
    MissingLetter("", COMPLETED, "output_item.done", 1);
  }

  lemma NoneFails()
    ensures !Fails(TEXT_DONE) && !Fails(ITEM_DONE) && !Fails(DELTA_KIND) && !Fails(COMPLETED)
  {
    FailsIsFailure(TEXT_DONE);
    FailsIsFailure(ITEM_DONE);
    FailsIsFailure(DELTA_KIND);
    FailsIsFailure(COMPLETED);
    DeltaKindIsNoFailure();
    OtherLastLetter(TEXT_DONE, ".failed");
    OtherLastLetter(TEXT_DONE, "error");
    OtherLastLetter(ITEM_DONE, ".failed");
    OtherLastLetter(ITEM_DONE, "error");
    CompletedDoesNotFail();
  }

  lemma CompletedDoesNotFail()
    ensures !IsFailure(COMPLETED)
  {
    OtherLastLetter(COMPLETED, "error");
    assert COMPLETED[|COMPLETED| - 7..] == "mpleted" && "mpleted"[0] == 'm' && ".failed"[0] == '.';
  }

  /** What an event of each type brings to the response: a delta is appended, a finished
      text counts while there is none, a finished item is listed, and any event's response
      object is taken; no other type brings text or items. */
  lemma KindsMean(f: Frame, e: StreamEvent, decode: Decoder, kind: string)
    requires decode(f.payload) == Some(e) && HasType(f, e, kind) && !e.hasError
    requires kind in {DELTA_KIND, TEXT_DONE, ITEM_DONE, COMPLETED}
    ensures PartOf(f, decode) == Part(
      if kind == DELTA_KIND && e.delta.Some? then e.delta.value else "",
      if kind == TEXT_DONE && e.text.Some? then e.text.value else "",
      if kind == ITEM_DONE && e.item.Some? then [e.item.value] else [],
      e.response)
  {
    TypeIsType(f, e, kind);
    NoneFails();
    FailsIsFailure(kind);
    TextDone();
    TextDoneOnly();
    ItemDone();
    ItemDoneOnly();
    DeltaKindIsTextDelta();
    TextDeltaOnly();
    CompletedIsNeither();
  }

  /** A text that begins like JSON, after blanks, passes untouched; a blank one is an
      error. */
  lemma NoStreamPasses(text: string, decode: Decoder)
    ensures !IsStream(text) ==> Normalized(text, decode) == if Text.TrimSpace(text) == "" then Err(EmptyStream) else Ok(Raw(text))
  {
  }
}
