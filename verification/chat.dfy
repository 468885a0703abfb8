/** Envelopes exchanged between the handlers of the chat engine. */
module Chat {

  /** The kinds of chat data a handler is given; only the ones the modelled handlers test for. */
  datatype ChatDataType = HumanAudio | HumanText | CameraVideo | AvatarText | OtherData

  /**
   * One output data bundle on a text channel: the main text payload, the end-of-turn
   * flag (`human_text_end` on the recognition side, `avatar_text_end` on the reply side)
   * and the turn's `speech_id`.
   */
  datatype TextBundle = TextBundle(text: string, isEnd: bool, speechId: string)

  /** The bundle that closes a turn: empty payload, end flag set. */
  function Sentinel(speechId: string): TextBundle
  {
    TextBundle("", true, speechId)
  }

  /** A bundle carrying text in the middle of a turn. */
  function Fragment(text: string, speechId: string): TextBundle
  {
    TextBundle(text, false, speechId)
  }

  /** Text bundles in the middle of a turn: one per text, in order. */
  function Fragments(texts: seq<string>, speechId: string): (r: seq<TextBundle>)
    ensures |r| == |texts|
    ensures forall k :: 0 <= k < |r| ==> r[k] == Fragment(texts[k], speechId)
  {
    seq(|texts|, k requires 0 <= k < |texts| => Fragment(texts[k], speechId))
  }

  lemma FragmentsAppend(a: seq<string>, b: seq<string>, speechId: string)
    ensures Fragments(a + b, speechId) == Fragments(a, speechId) + Fragments(b, speechId)
  {
    var l, r := Fragments(a + b, speechId), Fragments(a, speechId) + Fragments(b, speechId);
    assert forall k :: 0 <= k < |l| ==> l[k] == r[k];
  }

  /** The payloads of a bundle sequence, concatenated in order. */
  function Texts(bundles: seq<TextBundle>): string
  {
    if |bundles| == 0 then "" else bundles[0].text + Texts(bundles[1..])
  }

  lemma {:induction false} TextsAppend(a: seq<TextBundle>, b: seq<TextBundle>)
    ensures Texts(a + b) == Texts(a) + Texts(b)
  {
    if |a| == 0 {
      assert a + b == b;
    } else {
      assert (a + b)[1..] == a[1..] + b;
      TextsAppend(a[1..], b);
    }
  }
}
