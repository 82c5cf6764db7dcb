/**
 * The command/reply correlator of `MqttStreamClient` (src/mqtt.ts): a map
 * from sequence id to the resolver of a waiting command, filled by
 * `sendCommand` and emptied by a matching reply, by the command's timer or
 * by a failed publish. The broker, the timers and the promises are not
 * modelled as such: each callback the runtime would invoke is a method
 * here, and what a caller or listener observes is recorded in `log`.
 */
module Correlator {
  import opened Wrappers
  import opened Numbers
  import opened JsValue

  /** A promise handed to a caller of `sendCommand`, named by the order of the calls. */
  type PromiseId = nat

  datatype Event =
    | Resolved(promise: PromiseId, response: Value)   // the waiting caller receives the reply
    | Rejected(promise: PromiseId, error: string)     // the waiting caller receives an error
    | Data(topic: string, message: Value)             // a 'data' event
    | Published(topic: string, command: string)       // a publish handed to the broker client
    | Threw                                           // the message handler raised a TypeError

  const NotConnectedError: string := "MQTT client not connected."

  function TimeoutError(sequence: int): string {
    "Command timeout for sequence " + IntToString(sequence)
  }

  /** `message.print?.upgrade_state?.sequence_id` on a message that is not null. */
  function ReplySequence(message: Value): Value {
    Member(Member(Member(message, "print"), "upgrade_state"), "sequence_id")
  }

  /** The pending key a reply's sequence id names: a truthy number equal to an integer key (`Map.has` compares numbers by value). */
  function PendingKey(sequence: Value, pending: map<int, PromiseId>): (k: Option<int>)
    ensures k.Some? ==> k.value in pending && sequence == Number(Int(k.value)) && k.value != 0
    ensures k.None? ==> !Truthy(sequence) || forall n :: n in pending ==> sequence != Number(Int(n))
  {
    if Truthy(sequence) && sequence.Number? && sequence.n.scale == 0 && sequence.n.mantissa in pending then
      Some(sequence.n.mantissa)
    else None
  }

  class MqttStreamClient {
    /** `!!this.client && this.client.connected`. */
    var connected: bool
    const dataUpdateTopic: string
    /** Starts at 0; no method changes it. */
    var sequenceCounter: int
    var pendingCommands: map<int, PromiseId>
    /** The next promise `sendCommand` hands out. */
    var nextPromise: PromiseId
    /** Armed command timers: the promise each would reject and the sequence it would delete. */
    var timers: map<PromiseId, int>
    /** Publishes whose completion callback has not run yet. */
    var publishes: map<PromiseId, int>
    ghost var settled: set<PromiseId>
    ghost var log: seq<Event>

    /**
     * Each pending entry belongs to a live command: its timer is armed for
     * that very sequence and its promise is not settled. So no promise waits
     * under two ids, and a settled promise is never resolved again.
     */
    ghost predicate Valid()
      reads this
    {
      sequenceCounter == 0 &&
      (forall k :: k in pendingCommands ==>
        pendingCommands[k] in timers && timers[pendingCommands[k]] == k && pendingCommands[k] !in settled) &&
      (forall p :: p in publishes && p in timers ==> publishes[p] == timers[p]) &&
      (forall p :: p in timers ==> p < nextPromise) &&
      (forall p :: p in publishes ==> p < nextPromise) &&
      (forall p :: p in settled ==> p < nextPromise)
    }

    constructor(dataUpdateTopic: string)
      ensures Valid()
      ensures this.dataUpdateTopic == dataUpdateTopic && !connected && nextPromise == 0
      ensures pendingCommands == map[] && timers == map[] && publishes == map[]
      ensures settled == {} && log == []
    {
      this.dataUpdateTopic := dataUpdateTopic;
      connected := false;
      sequenceCounter := 0;
      pendingCommands := map[];
      nextPromise := 0;
      timers := map[];
      publishes := map[];
      settled := {};
      log := [];
    }

    /** The broker connection came up or went down (`connect`, `disconnect` and their events). */
    method SetConnected(up: bool)
      requires Valid()
      modifies this`connected
      ensures Valid() && connected == up
    {
      connected := up;
    }

    /**
     * `sendCommand(command, sequenceId)`: rejected at once when not
     * connected; otherwise the new promise waits under `sequenceId`
     * (replacing any earlier one), its timer is armed and the command is
     * published.
     */
    method SendCommand(command: string, sequenceId: int) returns (p: PromiseId)
      requires Valid()
      modifies this`pendingCommands, this`nextPromise, this`timers, this`publishes, this`settled, this`log
      ensures Valid()
      ensures p == old(nextPromise) && nextPromise == p + 1
      ensures !connected ==>
        pendingCommands == old(pendingCommands) && timers == old(timers) && publishes == old(publishes) &&
        settled == old(settled) + {p} && log == old(log) + [Rejected(p, NotConnectedError)]
      ensures connected ==>
        pendingCommands == old(pendingCommands)[sequenceId := p] &&
        timers == old(timers)[p := sequenceId] && publishes == old(publishes)[p := sequenceId] &&
        settled == old(settled) && log == old(log) + [Published(dataUpdateTopic, command)]
    {
      p := nextPromise;
      nextPromise := nextPromise + 1;
      if !connected {
        settled := settled + {p};
        log := log + [Rejected(p, NotConnectedError)];
        return;
      }
      pendingCommands := pendingCommands[sequenceId := p];
      timers := timers[p := sequenceId];
      publishes := publishes[p := sequenceId];
      log := log + [Published(dataUpdateTopic, command)];
    }

    /** Rejects `p` unless it is already settled; a settled promise ignores it. */
    method Reject(p: PromiseId, error: string)
      modifies this`settled, this`log
      ensures p in old(settled) ==> settled == old(settled) && log == old(log)
      ensures p !in old(settled) ==> settled == old(settled) + {p} && log == old(log) + [Rejected(p, error)]
    {
      if p !in settled {
        settled := settled + {p};
        log := log + [Rejected(p, error)];
      }
    }

    /**
     * The timer of `p` fires: whatever waits under its sequence id now is
     * dropped, even a newer command that reused the id, and `p` is rejected
     * unless a reply settled it first.
     */
    method TimeoutFires(p: PromiseId)
      requires Valid() && p in timers
      modifies this`pendingCommands, this`timers, this`settled, this`log
      ensures Valid()
      ensures pendingCommands == old(pendingCommands) - {old(timers)[p]}
      ensures timers == old(timers) - {p}
      ensures p in old(settled) ==> settled == old(settled) && log == old(log)
      ensures p !in old(settled) ==>
        settled == old(settled) + {p} && log == old(log) + [Rejected(p, TimeoutError(old(timers)[p]))]
    {
      var sequence := timers[p];
      pendingCommands := pendingCommands - {sequence};
      timers := timers - {p};
      Reject(p, TimeoutError(sequence));
    }

    /** The publish of `p` completed without error: nothing happens. */
    method PublishSucceeds(p: PromiseId)
      requires Valid() && p in publishes
      modifies this`publishes
      ensures Valid() && publishes == old(publishes) - {p}
    {
      publishes := publishes - {p};
    }

    /** The publish of `p` failed with `error`: its entry is deleted, its timer cleared, and it is rejected with that error. */
    method PublishFails(p: PromiseId, error: string)
      requires Valid() && p in publishes
      modifies this`pendingCommands, this`timers, this`publishes, this`settled, this`log
      ensures Valid()
      ensures pendingCommands == old(pendingCommands) - {old(publishes)[p]}
      ensures timers == old(timers) - {p} && publishes == old(publishes) - {p}
      ensures p in old(settled) ==> settled == old(settled) && log == old(log)
      ensures p !in old(settled) ==> settled == old(settled) + {p} && log == old(log) + [Rejected(p, error)]
    {
      var sequence := publishes[p];
      pendingCommands := pendingCommands - {sequence};
      timers := timers - {p};
      publishes := publishes - {p};
      Reject(p, error);
    }

    /**
     * `handleCommandResponse(response)`: a truthy sequence id that is
     * pending resolves its promise with the whole message and removes the
     * entry; anything else is re-emitted as data on `dataUpdateTopic`.
     */
    method HandleCommandResponse(response: Value)
      requires Valid()
      modifies this`pendingCommands, this`settled, this`log
      ensures Valid()
      ensures var k := PendingKey(ReplySequence(response), old(pendingCommands));
        (k.Some? ==>
          pendingCommands == old(pendingCommands) - {k.value} &&
          settled == old(settled) + {old(pendingCommands)[k.value]} &&
          log == old(log) + [Resolved(old(pendingCommands)[k.value], response)]) &&
        (k.None? ==>
          pendingCommands == old(pendingCommands) && settled == old(settled) &&
          log == old(log) + [Data(dataUpdateTopic, response)])
    {
      var sequence := ReplySequence(response);
      var k := PendingKey(sequence, pendingCommands);
      if k.Some? {
        var resolver := pendingCommands[k.value];
        settled := settled + {resolver};
        log := log + [Resolved(resolver, response)];
        pendingCommands := pendingCommands - {k.value};
      } else {
        log := log + [Data(dataUpdateTopic, response)];
      }
    }

    /**
     * `handleMessage(topic, payload)`, with the payload already through
     * `JSON.parse` (`None` when it failed). A non-JSON payload is dropped; a
     * null message makes the handler throw; a message whose sequence id is
     * at most `sequenceCounter` goes to reply handling; every other message
     * is emitted as data with its own topic.
     */
    method HandleMessage(topic: string, payload: Option<Value>)
      requires Valid()
      modifies this`pendingCommands, this`settled, this`log
      ensures Valid()
      ensures payload.None? ==>
        pendingCommands == old(pendingCommands) && settled == old(settled) && log == old(log)
      ensures payload.Some? && IsNullish(payload.value) ==>
        pendingCommands == old(pendingCommands) && settled == old(settled) && log == old(log) + [Threw]
      ensures (payload.Some? && !IsNullish(payload.value) &&
        !NumericAtMost(ToNumber(ReplySequence(payload.value)), sequenceCounter)) ==>
        pendingCommands == old(pendingCommands) && settled == old(settled) &&
        log == old(log) + [Data(topic, payload.value)]
      ensures (payload.Some? && !IsNullish(payload.value) &&
        NumericAtMost(ToNumber(ReplySequence(payload.value)), sequenceCounter)) ==>
        var k := PendingKey(ReplySequence(payload.value), old(pendingCommands));
        (k.Some? ==>
          pendingCommands == old(pendingCommands) - {k.value} &&
          settled == old(settled) + {old(pendingCommands)[k.value]} &&
          log == old(log) + [Resolved(old(pendingCommands)[k.value], payload.value)]) &&
        (k.None? ==>
          pendingCommands == old(pendingCommands) && settled == old(settled) &&
          log == old(log) + [Data(dataUpdateTopic, payload.value)])
    {
      if payload.None? {
        return;
      }
      var message := payload.value;
      if IsNullish(message) {
        log := log + [Threw];
        return;
      }
      if NumericAtMost(ToNumber(ReplySequence(message)), sequenceCounter) {
        HandleCommandResponse(message);
      } else {
        log := log + [Data(topic, message)];
      }
    }
  }

  // ---------------------------------------------------------------- quirks

  /** The sequence ids that fail `<= 0`: above zero, +Infinity, or NaN (which any non-numeric text reads as). */
  predicate AboveZero(x: Numeric) {
    x.PosInfinity? || x.NaN? || (x.Finite? && x.d.mantissa > 0)
  }

  /** With the counter fixed at 0, `sequence <= sequenceCounter` fails exactly for the ids above zero. */
  lemma AboveZeroNeverAtMost(x: Numeric)
    ensures !NumericAtMost(x, 0) <==> AboveZero(x)
  {
  }

  /** A positive id written as text, such as "7" or "0.5", converts to that number and so fails the comparison too. */
  lemma PositiveTextAboveZero(d: Dec)
    requires d.mantissa > 0
    ensures AboveZero(ToNumber(Str(NumToString(d))))
  {
    NumberStringRoundTrip(d);
  }

  /**
   * A message whose sequence id is above zero (a positive integer or
   * fraction, positive text, +Infinity or unreadable text) never reaches
   * reply handling: it is emitted as data on its own topic and no pending
   * command is settled.
   */
  method PositiveReplyIsData(c: MqttStreamClient, topic: string, m: Value)
    requires c.Valid() && !IsNullish(m) && AboveZero(ToNumber(ReplySequence(m)))
    modifies c`pendingCommands, c`settled, c`log
    ensures c.Valid()
    ensures c.pendingCommands == old(c.pendingCommands) && c.settled == old(c.settled)
    ensures c.log == old(c.log) + [Data(topic, m)]
  {
    AboveZeroNeverAtMost(ToNumber(ReplySequence(m)));
    c.HandleMessage(topic, Some(m));
  }

  /** Sequence id 0 reaches reply handling but is falsy, so it never matches a pending command. */
  lemma ZeroSequenceNeverMatches(pending: map<int, PromiseId>)
    ensures NumericAtMost(ToNumber(Number(Int(0))), 0)
    ensures PendingKey(Number(Int(0)), pending).None?
  {
  }

  /** A sequence id written as text is compared numerically but never matches, since the keys are numbers. */
  lemma TextSequenceNeverMatches(pending: map<int, PromiseId>, s: string)
    ensures PendingKey(Str(s), pending).None?
  {
  }

  /** The reply message a sequence id `n` produces. */
  function ReplyWith(n: int): Value {
    Obj(map["print" := Obj(map["upgrade_state" := Obj(map["sequence_id" := Number(Int(n))])])])
  }

  /**
   * The timer of a command answered by a reply is never cleared: sending a
   * second command under the same id and then letting the first timer fire
   * deletes the second command's entry, so the reply to the second command
   * is emitted as plain data and its caller only ever sees a timeout. The
   * replies arrive on topic "r", so the final `Data` event on the client's
   * topic "t" comes from reply handling, not from the plain data path.
   * Returns the pending ids and the log afterwards.
   */
  method StaleTimerScenario() returns (pendingAfter: map<int, PromiseId>, ghost logAfter: seq<Event>)
    ensures pendingAfter == map[]
    ensures logAfter == [
      Published("t", "a"),
      Resolved(0, ReplyWith(-1)),
      Published("t", "b"),
      Data("t", ReplyWith(-1))]
  {
    var c := AnsweredThenReused();
    c.TimeoutFires(0);
    assert c.pendingCommands == map[];
    assert c.log == [Published("t", "a"), Resolved(0, ReplyWith(-1)), Published("t", "b")];
    assert PendingKey(Number(Int(-1)), c.pendingCommands).None?;
    c.HandleMessage("r", Some(ReplyWith(-1)));
    pendingAfter := c.pendingCommands;
    logAfter := c.log;
  }

  /** A command under id -1 is answered on topic "r", then a second command reuses id -1; the first timer is still armed. */
  method AnsweredThenReused() returns (c: MqttStreamClient)
    ensures fresh(c) && c.Valid() && c.dataUpdateTopic == "t"
    ensures c.pendingCommands == map[-1 := 1] && 0 in c.timers && c.timers[0] == -1 && 0 in c.settled
    ensures c.log == [Published("t", "a"), Resolved(0, ReplyWith(-1)), Published("t", "b")]
  {
    c := new MqttStreamClient("t");
    c.SetConnected(true);
    var first := c.SendCommand("a", -1);
    assert c.log == [Published("t", "a")];
    assert ReplySequence(ReplyWith(-1)) == Number(Int(-1));
    assert NumericAtMost(ToNumber(Number(Int(-1))), 0);
    assert PendingKey(Number(Int(-1)), c.pendingCommands) == Some(-1);
    c.HandleMessage("r", Some(ReplyWith(-1)));
    assert c.log == [Published("t", "a"), Resolved(0, ReplyWith(-1))];
    var second := c.SendCommand("b", -1);
  }
}
