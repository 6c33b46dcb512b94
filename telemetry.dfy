// The `mqtt_messages` table of the telemetry database that both Python
// calibration scripts read and update. SQL is modelled by what it selects
// and what it changes; rows are kept in rowid order.
module Telemetry {

  /** One stored MQTT message; payload and timestamp are the stored text. */
  datatype Message = Message(id: int, topic: string, payload: string, timestamp: string, isProcessed: int)

  /** The table after `UPDATE mqtt_messages SET is_processed = 1 WHERE id = x`
      for every x in `ids`. */
  function Marked(ms: seq<Message>, ids: seq<int>): (r: seq<Message>)
    ensures |r| == |ms|
  {
    seq(|ms|, i requires 0 <= i < |ms| => if ms[i].id in ids then ms[i].(isProcessed := 1) else ms[i])
  }

  /** Marking sets exactly the rows with the given ids to processed and
      changes nothing else. */
  lemma MarkedSpec(ms: seq<Message>, ids: seq<int>, i: nat)
    requires i < |ms|
    ensures Marked(ms, ids)[i].isProcessed == (if ms[i].id in ids then 1 else ms[i].isProcessed)
    ensures Marked(ms, ids)[i] == ms[i].(isProcessed := Marked(ms, ids)[i].isProcessed)
  {
  }

  /** Updates by id commute: one set of ids after another marks their union. */
  lemma MarkedTwice(ms: seq<Message>, a: seq<int>, b: seq<int>)
    ensures Marked(Marked(ms, a), b) == Marked(ms, a + b)
  {
  }

  class MessageTable {
    var messages: seq<Message>

    constructor (ms: seq<Message>)
      ensures messages == ms
    {
      messages := ms;
    }

    /** One UPDATE statement per id, as the scripts issue them. */
    method MarkProcessed(ids: seq<int>)
      modifies this
      ensures messages == Marked(old(messages), ids)
    {
      ghost var ms := messages;
      var i := 0;
      while i < |ids|
        invariant 0 <= i <= |ids|
        invariant messages == Marked(ms, ids[..i])
      {
        MarkedTwice(ms, ids[..i], [ids[i]]);
        assert ids[..i + 1] == ids[..i] + [ids[i]];
        messages := Marked(messages, [ids[i]]);
        i := i + 1;
      }
      assert ids[..|ids|] == ids;
    }
  }
}
