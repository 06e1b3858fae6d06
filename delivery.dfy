/**
 * One text to one saved file: the retry loop around the synthesis request.
 * The remote service is abstracted as the outcome of each attempt.
 */
module Delivery {

  import opened Wrappers
  import opened Bytes
  import opened Formats

  /** What attempt number i of the request gives: the streamed chunks, or a timeout or request error. */
  datatype Attempt = Streamed(chunks: seq<seq<byte>>) | TransientFailure

  datatype Outcome =
    | Saved(attempt: nat, content: seq<byte>)   // the file is written, the loop breaks
    | Raised(attempt: nat, error: FormatError)  // an error the except clause does not catch
    | LastAttemptFailed                         // the final attempt failed too
    | NoAttempts                                // retries <= 0: range(retries) is empty

  const DefaultRetries: int := 3
  const DefaultRetryDelay: nat := 5

  /** b''.join of the chunks, in order. */
  function Concat(chunks: seq<seq<byte>>): seq<byte> {
    if chunks == [] then [] else chunks[0] + Concat(chunks[1..])
  }

  /** b''.join(chunk for chunk in audio_stream if chunk): the empty chunks are skipped. */
  function JoinChunks(chunks: seq<seq<byte>>): seq<byte> {
    if chunks == [] then []
    else if chunks[0] == [] then JoinChunks(chunks[1..])
    else chunks[0] + JoinChunks(chunks[1..])
  }

  /** Dropping the empty chunks never changes the audio. */
  lemma {:induction false} JoinChunksIsConcat(chunks: seq<seq<byte>>)
    ensures JoinChunks(chunks) == Concat(chunks)
  {
    if chunks != [] {
      JoinChunksIsConcat(chunks[1..]);
      if chunks[0] == [] {
        assert Concat(chunks) == [] + Concat(chunks[1..]);
      }
    }
  }

  /** The first attempt in [from, count) that streams, if any. */
  function FirstStreamed(respond: nat -> Attempt, from: nat, count: int): (r: Option<nat>)
    ensures r.Some? ==> from <= r.value < count && respond(r.value).Streamed?
    decreases count - from
  {
    if from >= count then None
    else if respond(from).Streamed? then Some(from)
    else FirstStreamed(respond, from + 1, count)
  }

  /** The attempt found streams and every one before it failed; none is found only when all fail. */
  lemma {:induction false} FirstStreamedSpec(respond: nat -> Attempt, from: nat, count: int)
    ensures var r := FirstStreamed(respond, from, count);
            (r.Some? ==> from <= r.value < count && respond(r.value).Streamed? &&
                         forall j :: from <= j < r.value ==> respond(j).TransientFailure?) &&
            (r.None? ==> forall j :: from <= j < count ==> respond(j).TransientFailure?)
    decreases count - from
  {
    if from < count && !respond(from).Streamed? {
      FirstStreamedSpec(respond, from + 1, count);
    }
  }

  /**
   * text_to_speech_file as a function of the attempts: the first attempt that
   * streams decides the result, and its audio is written once the format's
   * header is added; an error there propagates at once.
   */
  function DeliveryOutcome(outputFormat: string, retries: int, respond: nat -> Attempt): Outcome {
    if retries <= 0 then NoAttempts
    else
      match FirstStreamed(respond, 0, retries)
      case None => LastAttemptFailed
      case Some(i) =>
        match Encode(outputFormat, JoinChunks(respond(i).chunks))
        case Success(content) => Saved(i, content)
        case Failure(e) => Raised(i, e)
  }

  /** How many times the loop sleeps before it ends with this outcome. */
  function Sleeps(outcome: Outcome, retries: int): nat {
    match outcome
    case Saved(i, _) => i
    case Raised(i, _) => i
    case LastAttemptFailed => if retries > 0 then retries - 1 else 0
    case NoAttempts => 0
  }

  /**
   * text_to_speech_file(text, voice_id, output_filename, retries): written is
   * the list of contents written to output_filename, sleeps the number of
   * retry_delay pauses.
   */
  method TextToSpeechFile(outputFormat: string, retries: int, respond: nat -> Attempt)
    returns (outcome: Outcome, written: seq<seq<byte>>, sleeps: nat)
    ensures outcome == DeliveryOutcome(outputFormat, retries, respond)
    ensures written == if outcome.Saved? then [outcome.content] else []
    ensures sleeps == Sleeps(outcome, retries)
  {
    outcome, written, sleeps := NoAttempts, [], 0;
    var attempt := 0;
    while attempt < retries
      invariant attempt == 0 || attempt < retries
      invariant forall j :: 0 <= j < attempt ==> respond(j).TransientFailure?
      invariant outcome == NoAttempts && written == [] && sleeps == attempt
      decreases retries - attempt
    {
      match respond(attempt) {
        case Streamed(chunks) =>
          var audioData := JoinChunks(chunks);
          var prepared := Encode(outputFormat, audioData);
          FirstStreamedAt(respond, 0, retries, attempt);
          if prepared.Failure? {
            outcome := Raised(attempt, prepared.error);
            return;
          }
          written := written + [prepared.value];
          outcome := Saved(attempt, prepared.value);
          return;
        case TransientFailure =>
          if attempt < retries - 1 {
            sleeps := sleeps + 1;
          } else {
            NoneStreamed(respond, 0, retries);
            outcome := LastAttemptFailed;
            return;
          }
      }
      attempt := attempt + 1;
    }
  }

  lemma {:induction false} FirstStreamedAt(respond: nat -> Attempt, from: nat, count: int, i: nat)
    requires from <= i < count && respond(i).Streamed?
    requires forall j :: from <= j < i ==> respond(j).TransientFailure?
    ensures FirstStreamed(respond, from, count) == Some(i)
    decreases i - from
  {
    if from < i {
      FirstStreamedAt(respond, from + 1, count, i);
    }
  }

  lemma {:induction false} NoneStreamed(respond: nat -> Attempt, from: nat, count: int)
    requires forall j :: from <= j < count ==> respond(j).TransientFailure?
    ensures FirstStreamed(respond, from, count) == None
    decreases count - from
  {
    if from < count {
      NoneStreamed(respond, from + 1, count);
    }
  }

  /** A result comes from the first attempt that streamed, and every earlier one failed. */
  lemma DeliveryUsesFirstStream(outputFormat: string, retries: int, respond: nat -> Attempt)
    requires DeliveryOutcome(outputFormat, retries, respond).Saved? ||
             DeliveryOutcome(outputFormat, retries, respond).Raised?
    ensures var i := DeliveryOutcome(outputFormat, retries, respond).attempt;
            i < retries && respond(i).Streamed? &&
            forall j :: 0 <= j < i ==> respond(j).TransientFailure?
  {
    FirstStreamedSpec(respond, 0, retries);
  }

  /** The retries are used up exactly when every allowed attempt fails. */
  lemma DeliveryExhausted(outputFormat: string, retries: int, respond: nat -> Attempt)
    ensures DeliveryOutcome(outputFormat, retries, respond) == LastAttemptFailed <==>
            retries > 0 && forall j :: 0 <= j < retries ==> respond(j).TransientFailure?
  {
    FirstStreamedSpec(respond, 0, retries);
    if forall j :: 0 <= j < retries ==> respond(j).TransientFailure? {
      NoneStreamed(respond, 0, retries);
    }
  }

  /** The content saved is the streamed audio with empty chunks dropped and the format's header added. */
  lemma DeliverySavesEncodedAudio(outputFormat: string, retries: int, respond: nat -> Attempt)
    requires DeliveryOutcome(outputFormat, retries, respond).Saved?
    ensures var o := DeliveryOutcome(outputFormat, retries, respond);
            var audio := Concat(respond(o.attempt).chunks);
            Encode(outputFormat, audio) == Success(o.content) &&
            o.content[|o.content| - |audio|..] == audio
  {
    var o := DeliveryOutcome(outputFormat, retries, respond);
    JoinChunksIsConcat(respond(o.attempt).chunks);
  }

  /**
   * Two timeouts and then a stream under the default three retries: the
   * third attempt saves the prepared bytes of the joined chunks, whatever the
   * format, after two pauses of five seconds.
   */
  lemma TwoTimeoutsThenStream(outputFormat: string, respond: nat -> Attempt, chunks: seq<seq<byte>>)
    requires respond(0) == TransientFailure && respond(1) == TransientFailure
    requires respond(2) == Streamed(chunks)
    requires Encode(outputFormat, Concat(chunks)).Success?
    ensures DeliveryOutcome(outputFormat, DefaultRetries, respond) == Saved(2, Encode(outputFormat, Concat(chunks)).value)
    ensures Sleeps(DeliveryOutcome(outputFormat, DefaultRetries, respond), DefaultRetries) * DefaultRetryDelay == 10
  {
    assert FirstStreamed(respond, 0, DefaultRetries) == Some(2);
    JoinChunksIsConcat(chunks);
  }

  /** Three timeouts under the default retries: nothing is written and the loop paused twice. */
  lemma ThreeTimeouts(outputFormat: string, respond: nat -> Attempt)
    requires forall j :: 0 <= j < 3 ==> respond(j) == TransientFailure
    ensures DeliveryOutcome(outputFormat, DefaultRetries, respond) == LastAttemptFailed
    ensures Sleeps(DeliveryOutcome(outputFormat, DefaultRetries, respond), DefaultRetries) == 2
  {
    DeliveryExhausted(outputFormat, DefaultRetries, respond);
  }
}
