/**
 * `PostProducer`: the loop of `start` over the firehose messages and `send_message`.
 * For each kept document it persists the record in the transient table, publishes it,
 * and then removes it (acknowledged) or moves it to the failed table (not acknowledged).
 *
 * The functions describe what one document, and a whole stream, does to the world the
 * producer touches: the two tables, the broker topic and the order of its calls. The
 * class is proved to follow them, and the lemmas state the delivery guarantees.
 */
module Delivery {
  import opened Wrappers
  import opened Json
  import opened FieldExtractor
  import opened Normalize
  import opened Store
  import AsyncLogger

  /** A message the broker acknowledged: the generated key and the post record. */
  datatype Message = Message(key: string, value: PostRecord)

  /** What the outside world decides while one message is handled: the key `uuid4`
      generates, whether the broker acknowledges the send, and where storage fails. */
  datatype Env = Env(key: string, acked: bool, addFault: AddFault, removeFails: bool, moveFault: MoveFault)

  /** The producer's externally visible steps, in order: a transient row committed, a
      send attempt with its result, and the cleanup call that followed it. */
  datatype Step =
    | Stored(key: string, payload: Payload)
    | Send(key: string, acked: bool)
    | Remove(key: string)
    | Move(key: string)

  datatype World = World(tables: Tables, topic: seq<Message>, steps: seq<Step>)

  /** `find_keys` on an undecodable message (`None`) sees neither a dict nor a list. */
  function Document(message: Option<Json>): Json {
    if message.Some? then message.value else JNull
  }

  /** Write-before-send: every send attempt comes right after the commit of the same key. */
  predicate WriteBeforeSend(steps: seq<Step>) {
    forall i :: 0 <= i < |steps| && steps[i].Send? ==>
      i > 0 && steps[i - 1].Stored? && steps[i - 1].key == steps[i].key
  }

  predicate Delivered(topic: seq<Message>, key: string) {
    exists j :: 0 <= j < |topic| && topic[j].key == key
  }

  /** The record is still in one of the two tables with the payload that was stored. */
  predicate Retained(t: Tables, key: string, payload: Payload) {
    (key in t.transient && t.transient[key] == payload) || (key in t.failed && t.failed[key] == payload)
  }

  /** No record is lost: every committed record was acknowledged by the broker or is still
      in one of the two tables with its payload. */
  predicate NoneLost(w: World) {
    forall i :: 0 <= i < |w.steps| && w.steps[i].Stored? ==>
      Retained(w.tables, w.steps[i].key, w.steps[i].payload) || Delivered(w.topic, w.steps[i].key)
  }

  predicate KeyUnused(steps: seq<Step>, key: string) {
    forall i :: 0 <= i < |steps| ==> steps[i].key != key
  }

  /** `send_message(key, post)`: publish; when acknowledged, `remove_event`, otherwise
      `move_to_failed`. Exceptions from either cleanup call are caught and only printed,
      so `send_message` never raises. */
  function SendOutcome(w: World, key: string, post: PostRecord, env: Env): (r: World)
    ensures env.acked ==> r.topic == w.topic + [Message(key, post)]
    ensures !env.acked ==> r.topic == w.topic
    ensures env.acked && !env.removeFails ==> key !in r.tables.transient && r.tables.failed == w.tables.failed
    ensures env.acked && env.removeFails ==> r.tables == w.tables
    ensures !env.acked && key in w.tables.transient ==>
      Retained(r.tables, key, w.tables.transient[key])
    ensures !env.acked && key in w.tables.transient && env.moveFault == MoveOk ==>
      key !in r.tables.transient && key in r.tables.failed && r.tables.failed[key] == w.tables.transient[key]
    ensures forall k :: k != key ==>
      SameRow(r.tables.transient, w.tables.transient, k) && SameRow(r.tables.failed, w.tables.failed, k)
    ensures r.steps == w.steps + [Send(key, env.acked), if env.acked then Remove(key) else Move(key)]
  {
    if env.acked then
      World(Store.RemoveEvent(w.tables, key, env.removeFails).0,
            w.topic + [Message(key, post)],
            w.steps + [Send(key, true), Remove(key)])
    else
      World(Store.MoveToFailed(w.tables, key, env.moveFault).0,
            w.topic,
            w.steps + [Send(key, false), Move(key)])
  }

  /** One pass of the `async for` body of `start`, and whether the stream ends with it. A
      rejected document touches nothing. An `IndexError` from the filter leaves the loop
      for the one `except` outside it, which ends the stream. */
  function Handle(w: World, message: Option<Json>, env: Env, encode: PostRecord -> Payload): (r: (World, bool))
    ensures Classify(Document(message)).Rejected? ==> r == (w, false)
    ensures Classify(Document(message)).IndexError? ==> r == (w, true)
    ensures Classify(Document(message)).Accepted? ==> r == Persist(w, Classify(Document(message)).post, env, encode)
  {
    match Classify(Document(message))
    case IndexError => (w, true)
    case Rejected => (w, false)
    case Accepted(post) => Persist(w, post, env, encode)
  }

  /** A kept document: commit its record under the generated key, then send it. An
      exception from `add_event` also leaves the loop and ends the stream, with nothing
      sent; a row committed before the exception stays. */
  function Persist(w: World, post: PostRecord, env: Env, encode: PostRecord -> Payload): (r: (World, bool))
    ensures |w.topic| <= |r.0.topic| && r.0.topic[..|w.topic|] == w.topic
    ensures forall j :: |w.topic| <= j < |r.0.topic| ==> r.0.topic[j] == Message(env.key, post)
    ensures r.1 <==> !env.addFault.AddOk?
    ensures r.1 ==> r.0.topic == w.topic
    ensures env.addFault == WriteFails ==> r.0 == w
    ensures env.addFault != WriteFails ==> |r.0.steps| > |w.steps| && r.0.steps[|w.steps|] == Stored(env.key, encode(post))
    ensures |w.steps| <= |r.0.steps| && r.0.steps[..|w.steps|] == w.steps
    ensures forall i :: |w.steps| <= i < |r.0.steps| ==> r.0.steps[i].key == env.key
    ensures forall k :: k != env.key ==>
      SameRow(r.0.tables.transient, w.tables.transient, k) && SameRow(r.0.tables.failed, w.tables.failed, k)
  {
    var payload := encode(post);
    var (tables, out) := Store.AddEvent(w.tables, env.key, payload, env.addFault);
    var stored := w.(tables := tables,
                     steps := if env.addFault == WriteFails then w.steps else w.steps + [Stored(env.key, payload)]);
    if out != Normal then (stored, true)
    else (SendOutcome(stored, env.key, post, env), false)
  }

  /** The loop of `start` over a finite stretch of the stream, one environment per message;
      it stops at the first message that ends the stream. */
  function Run(w: World, messages: seq<Option<Json>>, envs: seq<Env>, encode: PostRecord -> Payload): (r: World)
    requires |envs| == |messages|
    ensures |w.steps| <= |r.steps| && r.steps[..|w.steps|] == w.steps
    ensures |w.topic| <= |r.topic| && r.topic[..|w.topic|] == w.topic
    decreases |messages|
  {
    if messages == [] then w
    else
      var (w', stop) := Handle(w, messages[0], envs[0], encode);
      if stop then w' else Run(w', messages[1..], envs[1..], encode)
  }

  /** Distinct keys, none used before: `uuid4` taken to never collide. */
  predicate FreshKeys(steps: seq<Step>, envs: seq<Env>) {
    (forall j :: 0 <= j < |envs| ==> KeyUnused(steps, envs[j].key)) &&
    (forall j, l :: 0 <= j < l < |envs| ==> envs[j].key != envs[l].key)
  }

  /** One message keeps every earlier record accounted for, and accounts for its own. */
  lemma HandleNoneLost(w: World, message: Option<Json>, env: Env, encode: PostRecord -> Payload)
    requires NoneLost(w) && KeyUnused(w.steps, env.key)
    ensures NoneLost(Handle(w, message, env, encode).0)
  {
    if Classify(Document(message)).Accepted? {
      PersistNoneLost(w, Classify(Document(message)).post, env, encode);
    }
  }

  lemma PersistNoneLost(w: World, post: PostRecord, env: Env, encode: PostRecord -> Payload)
    requires NoneLost(w) && KeyUnused(w.steps, env.key)
    ensures NoneLost(Persist(w, post, env, encode).0)
  {
    var (r, stop) := Persist(w, post, env, encode);
    forall i | 0 <= i < |r.steps| && r.steps[i].Stored?
      ensures Retained(r.tables, r.steps[i].key, r.steps[i].payload) || Delivered(r.topic, r.steps[i].key)
    {
      var key := r.steps[i].key;
      if i < |w.steps| {
        assert r.steps[i] == w.steps[i];
        assert key != env.key;
        if Delivered(w.topic, key) {
          var j :| 0 <= j < |w.topic| && w.topic[j].key == key;
          assert r.topic[j] == w.topic[j];
        }
      } else {
        var payload := encode(post);
        var stored := w.(tables := Store.AddEvent(w.tables, env.key, payload, env.addFault).0,
                         steps := w.steps + [Stored(env.key, payload)]);
        assert r.steps[i] == Stored(env.key, payload);
        if !stop {
          assert r == SendOutcome(stored, env.key, post, env);
          if env.acked {
            assert r.topic[|r.topic| - 1] == Message(env.key, post);
          }
        }
      }
    }
  }

  /** Over any stretch of the stream with fresh keys, no committed record is ever lost:
      it is acknowledged, or it is in the transient or failed table with its payload,
      whatever the broker answers and wherever storage fails. */
  lemma {:induction false} RunNoneLost(w: World, messages: seq<Option<Json>>, envs: seq<Env>, encode: PostRecord -> Payload)
    requires |envs| == |messages|
    requires NoneLost(w) && FreshKeys(w.steps, envs)
    ensures NoneLost(Run(w, messages, envs, encode))
    decreases |messages|
  {
    if messages != [] {
      HandleNoneLost(w, messages[0], envs[0], encode);
      var (w', stop) := Handle(w, messages[0], envs[0], encode);
      if !stop {
        forall j | 0 <= j < |envs[1..]|
          ensures KeyUnused(w'.steps, envs[1..][j].key)
        {
          assert envs[1..][j] == envs[j + 1];
          forall i | 0 <= i < |w'.steps| ensures w'.steps[i].key != envs[j + 1].key {
            if i < |w.steps| {
              assert w'.steps[i] == w.steps[i];
            }
          }
        }
        RunNoneLost(w', messages[1..], envs[1..], encode);
      }
    }
  }

  /** One message keeps the write-before-send order. */
  lemma HandleWriteBeforeSend(w: World, message: Option<Json>, env: Env, encode: PostRecord -> Payload)
    requires WriteBeforeSend(w.steps)
    ensures WriteBeforeSend(Handle(w, message, env, encode).0.steps)
  {
    if Classify(Document(message)).Accepted? {
      PersistWriteBeforeSend(w, Classify(Document(message)).post, env, encode);
    }
  }

  lemma PersistWriteBeforeSend(w: World, post: PostRecord, env: Env, encode: PostRecord -> Payload)
    requires WriteBeforeSend(w.steps)
    ensures WriteBeforeSend(Persist(w, post, env, encode).0.steps)
  {
    var r := Persist(w, post, env, encode).0;
    forall i | 0 <= i < |r.steps| && r.steps[i].Send?
      ensures i > 0 && r.steps[i - 1].Stored? && r.steps[i - 1].key == r.steps[i].key
    {
      if i < |w.steps| {
        assert r.steps[i] == w.steps[i] && r.steps[i - 1] == w.steps[i - 1];
      } else {
        assert r.steps == w.steps + [Stored(env.key, encode(post)), Send(env.key, env.acked),
          if env.acked then Remove(env.key) else Move(env.key)];
      }
    }
  }

  /** Over any stretch of the stream, nothing is ever sent before its record is committed. */
  lemma {:induction false} RunWriteBeforeSend(w: World, messages: seq<Option<Json>>, envs: seq<Env>, encode: PostRecord -> Payload)
    requires |envs| == |messages|
    requires WriteBeforeSend(w.steps)
    ensures WriteBeforeSend(Run(w, messages, envs, encode).steps)
    decreases |messages|
  {
    if messages != [] {
      HandleWriteBeforeSend(w, messages[0], envs[0], encode);
      var (w', stop) := Handle(w, messages[0], envs[0], encode);
      if !stop {
        RunWriteBeforeSend(w', messages[1..], envs[1..], encode);
      }
    }
  }

  /** A kept document whose send is acknowledged leaves no row behind under its fresh key
      when nothing fails, and its record is on the topic. */
  lemma DeliveredLeavesNoRow(w: World, message: Option<Json>, env: Env, encode: PostRecord -> Payload)
    requires Classify(Document(message)).Accepted?
    requires env.key !in w.tables.failed
    requires env.addFault == AddOk && env.acked && !env.removeFails
    ensures var r := Handle(w, message, env, encode);
      !r.1 && env.key !in r.0.tables.transient && env.key !in r.0.tables.failed &&
      r.0.topic == w.topic + [Message(env.key, Classify(Document(message)).post)]
  {
  }

  /** A kept document whose send fails ends, when the move succeeds, in the failed table
      with its payload and out of the transient table; under any move failure it is still
      in one of the two. */
  lemma FailedSendQuarantined(w: World, message: Option<Json>, env: Env, encode: PostRecord -> Payload)
    requires Classify(Document(message)).Accepted?
    requires env.addFault == AddOk && !env.acked
    ensures var r := Handle(w, message, env, encode);
      var payload := encode(Classify(Document(message)).post);
      !r.1 && r.0.topic == w.topic && Retained(r.0.tables, env.key, payload) &&
      (env.moveFault == MoveOk ==>
        env.key !in r.0.tables.transient && env.key in r.0.tables.failed && r.0.tables.failed[env.key] == payload)
  {
  }

  /** An undecodable message ends the stream with nothing done, and so does any document
      without a `kind`. */
  lemma UndecodableEndsStream(w: World, messages: seq<Option<Json>>, envs: seq<Env>, encode: PostRecord -> Payload)
    requires |envs| == |messages| && messages != [] && messages[0].None?
    ensures Run(w, messages, envs, encode) == w
  {
    NoKindRaises(JNull);
  }

  /** The producer script: the logger it persists through, the serialiser of its
      records, the topic as far as the broker acknowledged it, and its steps so far. */
  class PostProducer {
    const MessageTopic: string := "bluesky-raw-posts"
    const logger: AsyncLogger.HybridMessageLogger
    /** `json.dumps(post_dict).encode('utf-8')` */
    const encode: PostRecord -> Payload
    var topic: seq<Message>
    ghost var steps: seq<Step>

    ghost function Observed(): World
      reads this, logger
    {
      World(logger.Contents(), topic, steps)
    }

    constructor (logger: AsyncLogger.HybridMessageLogger, encode: PostRecord -> Payload)
      ensures this.logger == logger && this.encode == encode
      ensures topic == [] && steps == []
    {
      this.logger := logger;
      this.encode := encode;
      topic := [];
      steps := [];
    }

    /** `initialize`: opens the logger's databases, then runs `start` on the stream. */
    method Initialize(messages: seq<Option<Json>>, envs: seq<Env>)
      requires |envs| == |messages|
      modifies this, logger, logger.transientConn, logger.failedConn
      ensures logger.IsOpen()
      ensures Observed() == Run(old(Observed()), messages, envs, encode)
    {
      logger.Initialize();
      Start(messages, envs);
    }

    /** `send_message`: the broker's answer and the storage faults come from `env`. */
    method SendMessage(messageKey: string, message: PostRecord, env: Env)
      requires logger.IsOpen()
      modifies this`topic, this`steps, logger`transient, logger`failed
      ensures Observed() == SendOutcome(old(Observed()), messageKey, message, env)
    {
      if env.acked {
        topic := topic + [Message(messageKey, message)];
        steps := steps + [Send(messageKey, true)];
        // An exception from `remove_event` is caught and printed.
        var removed := logger.RemoveEvent(messageKey, env.removeFails);
        steps := steps + [Remove(messageKey)];
      } else {
        steps := steps + [Send(messageKey, false)];
        // An exception from `move_to_failed` is caught and printed.
        var moved := logger.MoveToFailed(messageKey, env.moveFault);
        steps := steps + [Move(messageKey)];
      }
    }

    /** `start`: the `async for` loop over the stream. The loop body has no `try` of its
        own, so the first `IndexError` or `add_event` failure ends the whole loop. */
    method Start(messages: seq<Option<Json>>, envs: seq<Env>)
      requires |envs| == |messages| && logger.IsOpen()
      modifies this`topic, this`steps, logger`transient, logger`failed
      ensures Observed() == Run(old(Observed()), messages, envs, encode)
    {
      var i := 0;
      while i < |messages|
        invariant i <= |messages|
        invariant Run(Observed(), messages[i..], envs[i..], encode) == Run(old(Observed()), messages, envs, encode)
        decreases |messages| - i
      {
        assert messages[i..][1..] == messages[i + 1..] && envs[i..][1..] == envs[i + 1..];
        var stop := HandleMessage(messages[i], envs[i]);
        if stop {
          return;
        }
        i := i + 1;
      }
    }

    /** One pass of the loop body of `start`; `stop` says the exception that leaves the
        loop was raised. */
    method HandleMessage(message: Option<Json>, env: Env) returns (stop: bool)
      requires logger.IsOpen()
      modifies this`topic, this`steps, logger`transient, logger`failed
      ensures (Observed(), stop) == Handle(old(Observed()), message, env, encode)
    {
      var extracted := FindKeys(Document(message), TargetKeys);
      match Admit(extracted) {
        case IndexError =>
          return true;
        case Rejected =>
          return false;
        case Accepted(post) =>
          var messageKey := env.key;
          var messageData := encode(post);
          var out := logger.AddEvent(messageKey, messageData, env.addFault);
          if env.addFault != WriteFails {
            steps := steps + [Stored(messageKey, messageData)];
          }
          if out != Normal {
            return true;
          }
          SendMessage(messageKey, post, env);
          return false;
      }
    }
  }
}
