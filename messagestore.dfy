/**
 * The server's in-memory message history: the global `messages` array and the
 * per-room arrays of `messagesByRoom`, each a bounded log that drops its oldest
 * entry once it grows past `Cap`.
 */
module MessageStore {
  import opened Wrappers
  import opened Seqs

  type ConnId = string
  type Room = string

  /** The retention bound of every log (`> 100` triggers a `shift`). */
  const Cap: nat := 100

  /**
   * A stored room message. `id` is the clock value `Date.now()` of the send,
   * `timestamp` the ISO time of the send, modelled as the number it encodes.
   */
  datatype Msg = Msg(
    id: int,
    sender: string,
    senderId: ConnId,
    message: string,
    image: Option<string>,
    timestamp: int)

  /** `messagesByRoom[room] || []`. */
  function Partition(byRoom: map<Room, seq<Msg>>, room: Room): (log: seq<Msg>)
    ensures room !in byRoom ==> log == []
    ensures room in byRoom ==> log == byRoom[room]
  {
    if room in byRoom then byRoom[room] else []
  }

  /** `log.push(m)` followed by one `log.shift()` when the log then holds more than `Cap`. */
  function BoundedAppend(log: seq<Msg>, m: Msg): (r: seq<Msg>)
    ensures |log| <= Cap ==> |r| <= Cap
    ensures r != [] && r[|r| - 1] == m
    ensures r[..|r| - 1] == if |log| < Cap then log else log[1..]
  {
    var pushed := log + [m];
    if |pushed| > Cap then
      assert pushed[1..] == log[1..] + [m];
      pushed[1..]
    else
      pushed
  }

  /** Appending a message to a log within the bound keeps exactly the newest `Cap` entries. */
  lemma BoundedAppendIsWindow(log: seq<Msg>, m: Msg)
    requires |log| <= Cap
    ensures BoundedAppend(log, m) == Window(log + [m], Cap)
  {
  }

  /** A log after a series of sends, oldest first. */
  function AppendAll(log: seq<Msg>, sent: seq<Msg>): (r: seq<Msg>)
    decreases |sent|
  {
    if sent == [] then log else AppendAll(BoundedAppend(log, sent[0]), sent[1..])
  }

  /** Retention: after any series of sends a log holds the newest `Cap` messages, in sending order. */
  lemma {:induction false} AppendAllIsWindow(log: seq<Msg>, sent: seq<Msg>)
    requires |log| <= Cap
    ensures AppendAll(log, sent) == Window(log + sent, Cap)
    ensures |AppendAll(log, sent)| <= Cap
    decreases |sent|
  {
    if sent == [] {
      assert log + sent == log;
    } else {
      var next := BoundedAppend(log, sent[0]);
      BoundedAppendIsWindow(log, sent[0]);
      AppendAllIsWindow(next, sent[1..]);
      WindowAbsorbs(log + [sent[0]], sent[1..], Cap);
      assert log + [sent[0]] + sent[1..] == log + sent;
    }
  }

  /** `Cap + 1` sends into an empty room: the first is gone, the other `Cap` remain in order. */
  lemma OldestEvicted(sent: seq<Msg>)
    requires |sent| == Cap + 1
    ensures AppendAll([], sent) == sent[1..]
    ensures sent[|sent| - 1] in AppendAll([], sent)
  {
    AppendAllIsWindow([], sent);
    assert [] + sent == sent;
  }
}
