/** The buffer between a worker's output and the receive queue. */
module PrintStream {
  import opened Messages
  import opened Sequences
  import opened Splicing
  import opened Redaction
  import DottedQuads

  /** The worker's end of the receive queue. Any publish may fail; then nothing is sent. */
  class AMQPQueue {
    var sent: seq<Message>
    /** Of every attempt to publish, whether it succeeded. */
    ghost var outcomes: seq<bool>

    constructor ()
      ensures sent == [] && outcomes == []
    {
      sent, outcomes := [], [];
    }

    ghost predicate LastFailed()
      reads this
    {
      outcomes != [] && !outcomes[|outcomes| - 1]
    }

    method Publish(m: Message) returns (ok: bool)
      modifies this
      ensures sent == (if ok then old(sent) + [m] else old(sent))
      ensures outcomes == old(outcomes) + [ok]
    {
      ok := *;
      if ok {
        sent := sent + [m];
      }
      outcomes := outcomes + [ok];
    }
  }

  /** A map of environment variables that can be shared and written. */
  class EnvMap {
    var vars: map<string, string>

    constructor (vars: map<string, string>)
      ensures this.vars == vars
    {
      this.vars := vars;
    }

    method Copy() returns (copy: EnvMap)
      ensures fresh(copy) && copy.vars == vars
    {
      copy := new EnvMap(vars);
    }
  }

  // ----- The buffer as a value

  /** `sent` is what has gone over the queue so far, if there is one. */
  datatype Buffer = Buffer(message: string, counter: nat, sent: seq<Message>)

  /** Where a flush sends to: no queue, or the queue of a build. */
  datatype Target = Nowhere | ToQueue(project: string, build: int)

  /** A flush that offers `text` to the target; if publishing fails, `text` stays buffered. */
  function Flushed(b: Buffer, target: Target, text: string, ok: bool): Buffer
  {
    if b.counter == 0 then
      b
    else if target.Nowhere? then
      b.(message := "", counter := 0)
    else if ok then
      Buffer("", 0, b.sent + [Message(target.project, target.build, Log(text))])
    else
      b.(message := text)
  }

  function Appended(b: Buffer, data: string): Buffer
  {
    b.(message := b.message + data, counter := b.counter + 1)
  }

  function LogText(sent: seq<Message>): string
  {
    if sent == [] then
      ""
    else
      LogText(sent[..|sent| - 1]) + (var body := sent[|sent| - 1].body; if body.Log? then body.text else "")
  }

  lemma LogTextOne(sent: seq<Message>, m: Message)
    ensures LogText(sent + [m]) == LogText(sent) + (if m.body.Log? then m.body.text else "")
  {
    assert (sent + [m])[..|sent|] == sent;
  }

  /** Everything that is published or still buffered, in order. */
  function Content(b: Buffer): string
  {
    LogText(b.sent) + b.message
  }

  datatype Op = Print(data: string, flushNow: bool, ok: bool) | Flush(ok: bool)

  /** One call, without redaction; `ok` is the outcome of the publish, if there is one. */
  function Apply(b: Buffer, target: Target, size: int, op: Op): Buffer
  {
    match op
    case Flush(ok) => Flushed(b, target, b.message, ok)
    case Print(data, flushNow, ok) =>
      var b' := Appended(b, data);
      if flushNow || b'.counter >= size then Flushed(b', target, b'.message, ok) else b'
  }

  function Perform(b: Buffer, target: Target, size: int, ops: seq<Op>): Buffer
  {
    if ops == [] then b else Apply(Perform(b, target, size, ops[..|ops| - 1]), target, size, ops[|ops| - 1])
  }

  function Data(op: Op): string
  {
    if op.Print? then op.data else ""
  }

  function PrintedBy(ops: seq<Op>): string
  {
    if ops == [] then "" else PrintedBy(ops[..|ops| - 1]) + Data(ops[|ops| - 1])
  }

  lemma FlushKeepsContent(b: Buffer, target: Target, ok: bool)
    requires target.ToQueue?
    ensures Content(Flushed(b, target, b.message, ok)) == Content(b)
  {
    LogTextOne(b.sent, Message(target.project, target.build, Log(b.message)));
  }

  lemma ApplyAddsData(b: Buffer, target: Target, size: int, op: Op)
    requires target.ToQueue?
    ensures Content(Apply(b, target, size, op)) == Content(b) + Data(op)
  {
    match op
    case Flush(ok) =>
      FlushKeepsContent(b, target, ok);
      assert Content(b) + "" == Content(b);
    case Print(data, flushNow, ok) =>
      FlushKeepsContent(Appended(b, data), target, ok);
      assert LogText(b.sent) + (b.message + data) == Content(b) + data;
  }

  /** For any sequence of prints and flushes and any publish failures, what is published and what
      is buffered make up all that was printed: nothing is lost, doubled or reordered. */
  lemma {:induction false} NothingIsLost(b: Buffer, target: Target, size: int, ops: seq<Op>)
    requires target.ToQueue?
    ensures Content(Perform(b, target, size, ops)) == Content(b) + PrintedBy(ops)
  {
    if ops == [] {
      assert Content(b) + "" == Content(b);
    } else {
      var front, op := ops[..|ops| - 1], ops[|ops| - 1];
      NothingIsLost(b, target, size, front);
      ApplyAddsData(Perform(b, target, size, front), target, size, op);
      assert Content(b) + PrintedBy(front) + Data(op) == Content(b) + (PrintedBy(front) + Data(op));
    }
  }

  /** How many of `ops` failed to publish. */
  function Failures(ops: seq<Op>): nat
  {
    if ops == [] then 0 else Failures(ops[..|ops| - 1]) + if ops[|ops| - 1].ok then 0 else 1
  }

  /** While publishing succeeds, fewer than `size` prints are ever pending; every failure lets at
      most one more wait. */
  lemma {:induction false} FewPrintsPending(b: Buffer, target: Target, size: int, ops: seq<Op>)
    requires size >= 1 && b.counter < size
    ensures Perform(b, target, size, ops).counter < size + Failures(ops)
  {
    if ops != [] {
      FewPrintsPending(b, target, size, ops[..|ops| - 1]);
    }
  }

  // ----- What may be published

  /** No address and no value of a variable other than CI, provided that it is clear of the markers. */
  ghost predicate IsClean(envs: map<string, string>, text: string)
  {
    && (forall w :: DottedQuads.IsQuad(w) ==> !Occurs(w, text))
    && (forall k :: k in envs && k != "CI" && envs[k] != "" && ClearOfMarkers(envs, envs[k]) ==> !Occurs(envs[k], text))
  }

  lemma RedactedIsClean(envs: map<string, string>, order: seq<string>, message: string)
    requires IsOrder(order, envs.Keys)
    ensures IsClean(envs, Redact(envs, order, message))
  {
    var text := Redact(envs, order, message);
    forall w | DottedQuads.IsQuad(w) ensures !Occurs(w, text) {
      NoQuadSurvives(envs, order, message, w);
    }
    forall k | k in envs && k != "CI" && envs[k] != "" && ClearOfMarkers(envs, envs[k]) ensures !Occurs(envs[k], text) {
      NoEnvValueSurvives(envs, order, message, k);
    }
  }

  ghost function SomeOrder(keys: set<string>): (order: seq<string>)
    ensures IsOrder(order, keys)
    decreases |keys|
  {
    if keys == {} then
      []
    else
      var k :| k in keys;
      var rest := SomeOrder(keys - {k});
      assert forall j :: j in [k] + rest <==> j == k || j in rest;
      [k] + rest
  }

  /** What a flush makes of the buffered text if it takes the variables in this order. */
  ghost function Rendered(redact: bool, envs: map<string, string>, order: seq<string>, text: string): string
  {
    if redact then Redact(envs, if IsOrder(order, envs.Keys) then order else SomeOrder(envs.Keys), text) else text
  }

  ghost predicate MayBePublished(redact: bool, envs: map<string, string>, text: string)
  {
    redact ==> IsClean(envs, text)
  }

  /** How a buffer redacts, as functions: what a flush makes of a text, and what it may publish. */
  datatype Redactor = Redactor(render: (seq<string>, string) -> string, allowed: string -> bool)

  ghost predicate IsRedactor(r: Redactor, redact: bool, envs: map<string, string>)
  {
    && (forall order, text {:trigger Rendered(redact, envs, order, text)} ::
          r.render(order, text) == Rendered(redact, envs, order, text))
    && (forall text {:trigger MayBePublished(redact, envs, text)} ::
          r.allowed(text) <==> MayBePublished(redact, envs, text))
  }

  /** With redaction, what is allowed is clean. */
  lemma AllowedIsClean(r: Redactor, envs: map<string, string>, text: string)
    requires IsRedactor(r, true, envs) && r.allowed(text)
    ensures IsClean(envs, text)
  {
    assert MayBePublished(true, envs, text);
  }

  ghost predicate IsPlain(r: Redactor)
  {
    forall order, text :: r.render(order, text) == text
  }

  lemma WithoutRedactionIsPlain(r: Redactor, envs: map<string, string>)
    requires IsRedactor(r, false, envs)
    ensures IsPlain(r)
  {
    forall order, text ensures r.render(order, text) == text {
      assert Rendered(false, envs, order, text) == text;
    }
  }

  // ----- What is published of what was printed

  /** Text that was printed up to a flush, and the order in which that flush took the variables. */
  datatype Part = Part(data: string, order: seq<string>)

  /** A flush that fails leaves its text redacted, and the next one redacts it again with what has
      been printed since. */
  function Text(r: Redactor, parts: seq<Part>): string
  {
    if parts == [] then
      ""
    else
      var last := parts[|parts| - 1];
      r.render(last.order, Text(r, parts[..|parts| - 1]) + last.data)
  }

  function Raw(parts: seq<Part>): string
  {
    if parts == [] then "" else Raw(parts[..|parts| - 1]) + parts[|parts| - 1].data
  }

  /** All that was printed into a buffer: for each text that has left it the parts it is made of,
      the parts that are still in it after failed flushes, and the rest. */
  datatype Record = Record(done: seq<seq<Part>>, open: seq<Part>, rest: string)

  const NOTHING := Record([], [], "")

  function Texts(r: Redactor, done: seq<seq<Part>>): seq<string>
  {
    if done == [] then [] else Texts(r, done[..|done| - 1]) + [Text(r, done[|done| - 1])]
  }

  function RawAll(done: seq<seq<Part>>): string
  {
    if done == [] then "" else RawAll(done[..|done| - 1]) + Raw(done[|done| - 1])
  }

  /** What was printed, in order. */
  function Printed(record: Record): string
  {
    RawAll(record.done) + Raw(record.open) + record.rest
  }

  /** What of it is in the buffer. */
  function Buffered(r: Redactor, record: Record): string
  {
    Text(r, record.open) + record.rest
  }

  function LogsOf(sent: seq<Message>): seq<string>
  {
    if sent == [] then
      []
    else
      var front, m := LogsOf(sent[..|sent| - 1]), sent[|sent| - 1];
      if m.body.Log? then front + [m.body.text] else front
  }

  lemma LogsOfOne(sent: seq<Message>, m: Message)
    ensures LogsOf(sent + [m]) == if m.body.Log? then LogsOf(sent) + [m.body.text] else LogsOf(sent)
  {
    assert (sent + [m])[..|sent|] == sent;
  }

  function WithPart(record: Record, order: seq<string>): seq<Part>
  {
    record.open + [Part(record.rest, order)]
  }

  /** The record after a flush. */
  function FlushedRecord(record: Record, order: seq<string>, ok: bool): Record
  {
    if ok then
      Record(record.done + [WithPart(record, order)], [], "")
    else
      record.(open := WithPart(record, order), rest := "")
  }

  lemma FlushedText(r: Redactor, record: Record, order: seq<string>)
    ensures Text(r, WithPart(record, order)) == r.render(order, Buffered(r, record))
    ensures Raw(WithPart(record, order)) == Raw(record.open) + record.rest
  {
    assert WithPart(record, order)[..|record.open|] == record.open;
  }

  /** A flush neither loses nor doubles anything that was printed. */
  lemma FlushKeepsPrinted(r: Redactor, record: Record, order: seq<string>, ok: bool)
    ensures Printed(FlushedRecord(record, order, ok)) == Printed(record)
    ensures ok ==>
              Texts(r, FlushedRecord(record, order, ok).done)
              == Texts(r, record.done) + [r.render(order, Buffered(r, record))]
  {
    FlushedText(r, record, order);
    if ok {
      var done := FlushedRecord(record, order, ok).done;
      assert done[..|record.done|] == record.done;
      assert RawAll(done) == RawAll(record.done) + (Raw(record.open) + record.rest);
      assert RawAll(done) + "" + "" == RawAll(record.done) + Raw(record.open) + record.rest;
    } else {
      assert RawAll(record.done) + (Raw(record.open) + record.rest) + ""
          == RawAll(record.done) + Raw(record.open) + record.rest;
    }
  }

  /** `printed` is what the record says was printed, and `buffered` what flushing has made of the
      part in the buffer; if there is a queue, its logs are `start` and what flushing has made of the
      part that has left. */
  predicate Tells(r: Redactor, start: seq<string>, queued: bool, record: Record, printed: string, buffered: string,
                  sent: seq<Message>)
  {
    && printed == Printed(record) && buffered == Buffered(r, record)
    && (queued ==> LogsOf(sent) == start + Texts(r, record.done))
  }

  /** The same as a function. */
  type Account = (Record, string, string, seq<Message>) -> bool

  ghost predicate IsAccount(account: Account, r: Redactor, start: seq<string>, queued: bool)
  {
    forall record, printed, buffered, sent {:trigger Tells(r, start, queued, record, printed, buffered, sent)} ::
      account(record, printed, buffered, sent) <==> Tells(r, start, queued, record, printed, buffered, sent)
  }

  lemma AccountMeaning(account: Account, r: Redactor, start: seq<string>, queued: bool, record: Record,
                       printed: string, buffered: string, sent: seq<Message>)
    requires IsAccount(account, r, start, queued) && account(record, printed, buffered, sent)
    ensures Tells(r, start, queued, record, printed, buffered, sent)
  {
  }

  lemma OfferedPrinted(r: Redactor, record: Record, order: seq<string>, text: string, ok: bool)
    requires text == r.render(order, Buffered(r, record))
    ensures Printed(FlushedRecord(record, order, ok)) == Printed(record)
    ensures Buffered(r, FlushedRecord(record, order, ok)) == if ok then "" else text
  {
    FlushKeepsPrinted(r, record, order, ok);
    if !ok {
      FlushedText(r, record, order);
      assert text + "" == text;
    }
  }

  lemma OfferedTexts(r: Redactor, start: seq<string>, record: Record, order: seq<string>, text: string)
    requires text == r.render(order, Buffered(r, record))
    ensures start + Texts(r, FlushedRecord(record, order, true).done) == start + Texts(r, record.done) + [text]
  {
    FlushKeepsPrinted(r, record, order, true);
    assert start + (Texts(r, record.done) + [text]) == start + Texts(r, record.done) + [text];
  }

  /** Offering a text to the queue, which takes it or not. */
  lemma OfferedIsTold(account: Account, r: Redactor, start: seq<string>, record: Record, order: seq<string>,
                      printed: string, raw: string, text: string, sent: seq<Message>, m: Message, ok: bool)
    requires IsAccount(account, r, start, true) && account(record, printed, raw, sent)
    requires text == r.render(order, raw) && m.body == Log(text)
    ensures account(FlushedRecord(record, order, ok), printed, if ok then "" else text, if ok then sent + [m] else sent)
  {
    assert Tells(r, start, true, record, printed, raw, sent);
    OfferedPrinted(r, record, order, text, ok);
    if ok {
      LogsOfOne(sent, m);
      OfferedTexts(r, start, record, order, text);
    }
    assert Tells(r, start, true, FlushedRecord(record, order, ok), printed,
                 if ok then "" else text, if ok then sent + [m] else sent);
  }

  /** Without a queue a flush just empties the buffer. */
  lemma DiscardedIsTold(account: Account, r: Redactor, start: seq<string>, record: Record, printed: string, raw: string)
    requires IsAccount(account, r, start, false) && account(record, printed, raw, [])
    ensures account(FlushedRecord(record, [], true), printed, "", [])
  {
    assert Tells(r, start, false, record, printed, raw, []);
    OfferedPrinted(r, record, [], r.render([], raw), true);
    assert Tells(r, start, false, FlushedRecord(record, [], true), printed, "", []);
  }

  lemma AppendedIsTold(account: Account, r: Redactor, start: seq<string>, queued: bool, record: Record, data: string,
                       printed: string, buffered: string, sent: seq<Message>)
    requires IsAccount(account, r, start, queued) && account(record, printed, buffered, sent)
    ensures account(record.(rest := record.rest + data), printed + data, buffered + data, sent)
  {
    assert Tells(r, start, queued, record, printed, buffered, sent);
    assert RawAll(record.done) + Raw(record.open) + (record.rest + data)
        == RawAll(record.done) + Raw(record.open) + record.rest + data;
    assert Text(r, record.open) + (record.rest + data) == Text(r, record.open) + record.rest + data;
    assert Tells(r, start, queued, record.(rest := record.rest + data), printed + data, buffered + data, sent);
  }

  /** What else goes over the queue is of no account. */
  lemma OthersAreNotTold(account: Account, r: Redactor, start: seq<string>, record: Record, printed: string,
                         buffered: string, sent: seq<Message>, m: Message)
    requires IsAccount(account, r, start, true) && account(record, printed, buffered, sent) && !m.body.Log?
    ensures account(record, printed, buffered, sent + [m])
  {
    assert Tells(r, start, true, record, printed, buffered, sent);
    LogsOfOne(sent, m);
    assert Tells(r, start, true, record, printed, buffered, sent + [m]);
  }

  lemma {:induction false} TextIsRaw(r: Redactor, parts: seq<Part>)
    requires IsPlain(r)
    ensures Text(r, parts) == Raw(parts)
  {
    if parts != [] {
      TextIsRaw(r, parts[..|parts| - 1]);
    }
  }

  lemma {:induction false} TextsAreRaw(r: Redactor, done: seq<seq<Part>>)
    requires IsPlain(r)
    ensures Concat(Texts(r, done)) == RawAll(done)
  {
    if done != [] {
      var front, last := done[..|done| - 1], done[|done| - 1];
      TextsAreRaw(r, front);
      TextIsRaw(r, last);
      ConcatOne(Texts(r, front), Text(r, last));
    }
  }

  /** Without redaction, what has left the buffer followed by what is in it is what was printed. */
  lemma PlainRecordLosesNothing(r: Redactor, record: Record)
    requires IsPlain(r)
    ensures Concat(Texts(r, record.done)) + Buffered(r, record) == Printed(record)
  {
    TextsAreRaw(r, record.done);
    TextIsRaw(r, record.open);
    assert RawAll(record.done) + (Raw(record.open) + record.rest)
        == RawAll(record.done) + Raw(record.open) + record.rest;
  }

  /** Once nothing is in the buffer, all that was printed has left it. */
  lemma SettledRecord(record: Record)
    requires record.open == [] && record.rest == ""
    ensures RawAll(record.done) == Printed(record)
  {
    assert RawAll(record.done) + "" + "" == RawAll(record.done);
  }

  ghost function NewRedactor(redact: bool, envs: map<string, string>): (r: Redactor)
    ensures IsRedactor(r, redact, envs)
  {
    Redactor((order, text) => Rendered(redact, envs, order, text), text => MayBePublished(redact, envs, text))
  }

  ghost function NewAccount(r: Redactor, start: seq<string>, queued: bool): (account: Account)
    ensures IsAccount(account, r, start, queued)
  {
    (record, printed, buffered, sent) => Tells(r, start, queued, record, printed, buffered, sent)
  }

  lemma NothingIsTold(account: Account, r: Redactor, start: seq<string>, sent: seq<Message>)
    requires start == LogsOf(sent)
    requires IsAccount(account, r, start, true) || IsAccount(account, r, start, false)
    ensures account(NOTHING, "", "", sent)
  {
    assert start + [] == start;
    assert Tells(r, start, true, NOTHING, "", "", sent) && Tells(r, start, false, NOTHING, "", "", sent);
  }

  // ----- The buffer as an object

  class PrintStreamBuffer {
    const q: AMQPQueue?
    const bufferSize: int
    const buildno: int
    const jenkinsProject: string
    const envs: EnvMap
    const redact: bool
    var message: string
    var counter: nat
    /** All that was printed, and how it has left the buffer. */
    ghost var printed: string
    ghost var record: Record
    /** The variables, which nobody changes, and the logs on the queue before there was this buffer. */
    ghost const vars: map<string, string>
    ghost const start: seq<string>
    ghost const manner: Redactor
    ghost const account: Account

    constructor (q: AMQPQueue?, bufferSize: int, buildno: int, jenkinsProject: string, envs: EnvMap, redact: bool)
      ensures this.q == q && this.bufferSize == bufferSize && this.buildno == buildno
      ensures this.jenkinsProject == jenkinsProject && this.envs == envs && this.redact == redact && vars == envs.vars
      ensures Founded() && Valid() && counter == 0 && printed == ""
    {
      this.q, this.bufferSize, this.buildno := q, bufferSize, buildno;
      this.jenkinsProject, this.envs, this.redact := jenkinsProject, envs, redact;
      message, counter := "", 0;
      ghost var variables := envs.vars;
      record, vars, printed := NOTHING, variables, "";
      ghost var r := NewRedactor(redact, variables);
      ghost var before := if q == null then [] else LogsOf(q.sent);
      manner, start, account := r, before, NewAccount(r, before, q != null);
      new;
      NothingIsTold(account, manner, start, Sent());
    }

    ghost function View(): Buffer
      reads this, q
    {
      Buffer(message, counter, Sent())
    }

    ghost function Destination(): Target
    {
      if q == null then Nowhere else ToQueue(jenkinsProject, buildno)
    }

    ghost function Sent(): seq<Message>
      reads q
    {
      if q == null then [] else q.sent
    }

    /** The functions do what their names say; this never changes. */
    ghost predicate Founded()
    {
      IsRedactor(manner, redact, vars) && IsAccount(account, manner, start, q != null)
    }

    /** With or without redaction, the record tells what was printed, what is in the buffer and which
        logs are on the queue. */
    ghost predicate Valid()
      reads this, q, envs
    {
      && envs.vars == vars
      && (counter == 0 ==> record.open == [] && record.rest == "")
      && account(record, printed, message, Sent())
    }

    /** Nothing is buffered, unless the last publish failed. */
    ghost predicate Settled()
      reads this, q
    {
      counter == 0 || (q != null && q.LastFailed())
    }

    /** After a failed publish there is something buffered. */
    ghost predicate Owing()
      reads this, q
    {
      q != null && q.LastFailed() ==> counter > 0
    }

    /** The loop over the environment and the replacement of addresses. */
    method RedactMessage() returns (ghost order: seq<string>)
      modifies this`message
      ensures IsOrder(order, envs.vars.Keys) && message == Redact(envs.vars, order, old(message))
    {
      var rest := envs.vars.Keys;
      order := [];
      while exists k :: k in rest
        invariant rest <= envs.vars.Keys
        invariant IsOrder(order, envs.vars.Keys - rest)
        invariant message == RedactEnvs(envs.vars, order, old(message))
        decreases |rest|
      {
        var k :| k in rest;
        if k != "CI" {
          message := ReplaceAll(message, envs.vars[k], EnvMarker(k));
        }
        ghost var order' := order + [k];
        assert order'[..|order|] == order;
        rest, order := rest - {k}, order';
      }
      message := RedactIPs(message);
      assert envs.vars.Keys - rest == envs.vars.Keys;
    }

    /** Redacts the message if it is to be. */
    method PrepareMessage() returns (ghost order: seq<string>)
      requires Founded() && envs.vars == vars
      modifies this`message
      ensures message == manner.render(order, old(message)) && manner.allowed(message)
    {
      order := [];
      ghost var raw := message;
      if redact {
        order := RedactMessage();
        RedactedIsClean(vars, order, raw);
      }
      assert message == Rendered(redact, vars, order, raw) && MayBePublished(redact, vars, message);
    }

    /** Offers the message, which is what a flush in this order makes of the buffered text, to the
        queue and empties the buffer if it is taken. */
    method PublishMessage(ghost order: seq<string>, ghost raw: string) returns (ok: bool)
      requires q != null && Founded() && account(record, printed, raw, q.sent)
      requires message == manner.render(order, raw)
      modifies this`message, this`counter, this`record, q
      ensures account(record, printed, message, q.sent)
      ensures old(record.done) <= record.done
      ensures ok ==> record.open == [] && record.rest == ""
      ensures q.sent == if ok then old(q.sent) + [Message(jenkinsProject, buildno, Log(old(message)))] else old(q.sent)
      ensures message == (if ok then "" else old(message)) && counter == if ok then 0 else old(counter)
      ensures q.outcomes == old(q.outcomes) + [ok]
    {
      ghost var sent := q.sent;
      ok := q.Publish(Message(jenkinsProject, buildno, Log(message)));
      OfferedIsTold(account, manner, start, record, order, printed, raw, message, sent,
                    Message(jenkinsProject, buildno, Log(message)), ok);
      record := FlushedRecord(record, order, ok);
      if ok {
        message, counter := "", 0;
      }
    }

    /** Redacts the message, if it is to be, and publishes it. */
    method OfferMessage() returns (ok: bool, ghost text: string)
      requires Founded() && Valid() && q != null && counter > 0
      modifies this`message, this`counter, this`record, q
      ensures Valid() && (ok || q.LastFailed())
      ensures old(record.done) <= record.done
      ensures manner.allowed(text)
      ensures q.sent == if ok then old(q.sent) + [Message(jenkinsProject, buildno, Log(text))] else old(q.sent)
      ensures message == (if ok then "" else text) && counter == if ok then 0 else old(counter)
      ensures q.outcomes == old(q.outcomes) + [ok]
    {
      ghost var raw := message;
      ghost var order := PrepareMessage();
      text := message;
      ok := PublishMessage(order, raw);
    }

    method FlushToQueue() returns (ok: bool, ghost text: string)
      requires Founded() && Valid()
      modifies this`message, this`counter, this`record, q
      ensures Valid() && Settled() && (old(Owing()) ==> Owing())
      ensures old(record.done) <= record.done
      ensures q != null && old(counter) > 0 ==> manner.allowed(text)
      ensures View() == Flushed(old(View()), Destination(), text, ok)
      ensures ok ==> counter == 0
      ensures old(counter) == 0 || q == null ==> ok
      ensures q != null ==> q.outcomes == if old(counter) == 0 then old(q.outcomes) else old(q.outcomes) + [ok]
    {
      ok, text := true, message;
      if counter > 0 {
        if q != null {
          ok, text := OfferMessage();
        } else {
          DiscardedIsTold(account, manner, start, record, printed, message);
          message, counter, record := "", 0, FlushedRecord(record, [], true);
        }
      }
    }

    method Print(data: string, flushNow: bool) returns (ok: bool, ghost text: string)
      requires Founded() && Valid()
      modifies this, q
      ensures Valid() && printed == old(printed) + data && old(record.done) <= record.done
      ensures q != null && (flushNow || old(counter) + 1 >= bufferSize) ==> manner.allowed(text)
      ensures var b := Appended(old(View()), data);
              View() == if flushNow || b.counter >= bufferSize then Flushed(b, Destination(), text, ok) else b
      ensures (flushNow ==> Settled()) && (old(Owing()) ==> Owing())
      ensures ok && bufferSize >= 1 ==> counter < bufferSize
      ensures q != null ==> old(q.outcomes) <= q.outcomes
    {
      AppendedIsTold(account, manner, start, q != null, record, data, printed, message, Sent());
      message, counter := message + data, counter + 1;
      printed, record := printed + data, record.(rest := record.rest + data);
      ok, text := true, message;
      if flushNow || counter >= bufferSize {
        ok, text := FlushToQueue();
      }
    }
  }
}
