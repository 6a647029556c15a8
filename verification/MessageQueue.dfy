/**
 A System V message queue: selection of the message to receive, the byte and
 message counters, and the order of delivery within each type over whole runs.
 */
module MessageQueue {
  import opened Options

  datatype Error = EAGAIN | ENOMSG | EINVAL

  datatype Result<+T> = Ok(value: T) | Err(error: Error)

  datatype Unit = Unit

  const MSGMAX: nat := 8192
  const MSGMNB: nat := 16384
  const LONG_MIN: int := -0x8000_0000_0000_0000

  /** c_long */
  type Long = x: int | -0x8000_0000_0000_0000 <= x < 0x8000_0000_0000_0000

  datatype Message = Message(mtype: Long, text: seq<nat>)

  function Bytes(ms: seq<Message>): nat {
    if ms == [] then 0 else Bytes(ms[..|ms| - 1]) + |ms[|ms| - 1].text|
  }

  /** The messages of one type, in order. */
  function OfType(ms: seq<Message>, ty: int): seq<Message> {
    if ms == [] then []
    else OfType(ms[..|ms| - 1], ty) + if ms[|ms| - 1].mtype == ty then [ms[|ms| - 1]] else []
  }

  lemma {:induction false} OfTypeConcat(a: seq<Message>, b: seq<Message>, ty: int)
    ensures OfType(a + b, ty) == OfType(a, ty) + OfType(b, ty)
  {
    if b == [] {
      assert a + b == a;
    } else {
      var n := |b| - 1;
      assert (a + b)[..|a + b| - 1] == a + b[..n];
      OfTypeConcat(a, b[..n], ty);
    }
  }

  lemma {:induction false} BytesConcat(a: seq<Message>, b: seq<Message>)
    ensures Bytes(a + b) == Bytes(a) + Bytes(b)
  {
    if b == [] {
      assert a + b == a;
    } else {
      var n := |b| - 1;
      assert (a + b)[..|a + b| - 1] == a + b[..n];
      BytesConcat(a, b[..n]);
    }
  }

  lemma {:induction false} NoneOfType(ms: seq<Message>, ty: int)
    requires forall i | 0 <= i < |ms| :: ms[i].mtype != ty
    ensures OfType(ms, ty) == []
  {
    if ms != [] { NoneOfType(ms[..|ms| - 1], ty); }
  }

  function One(m: Message, ty: int): seq<Message> { if m.mtype == ty then [m] else [] }

  lemma OfTypeAround(a: seq<Message>, m: Message, b: seq<Message>, ty: int)
    ensures OfType(a + [m] + b, ty) == OfType(a, ty) + One(m, ty) + OfType(b, ty)
  {
    OfTypeConcat(a + [m], b, ty);
    assert (a + [m])[..|a|] == a;
  }

  lemma BytesAround(a: seq<Message>, m: Message, b: seq<Message>)
    ensures Bytes(a + [m] + b) == Bytes(a + b) + |m.text|
  {
    BytesConcat(a + [m], b);
    BytesConcat(a, b);
    assert (a + [m])[..|a|] == a;
  }

  /** Taking out the first message of its type leaves the order of every type as it was. */
  lemma TakeFirst(ms: seq<Message>, k: nat, ty: int)
    requires k < |ms| && forall i | 0 <= i < k :: ms[i].mtype != ms[k].mtype
    ensures OfType(ms, ty) == One(ms[k], ty) + OfType(ms[..k] + ms[k + 1..], ty)
    ensures Bytes(ms) == Bytes(ms[..k] + ms[k + 1..]) + |ms[k].text|
  {
    assert ms == ms[..k] + [ms[k]] + ms[k + 1..];
    OfTypeAround(ms[..k], ms[k], ms[k + 1..], ty);
    BytesAround(ms[..k], ms[k], ms[k + 1..]);
    OfTypeConcat(ms[..k], ms[k + 1..], ty);
    if ty == ms[k].mtype { NoneOfType(ms[..k], ty); }
    Regroup(OfType(ms[..k], ty), One(ms[k], ty), OfType(ms[k + 1..], ty));
  }

  lemma Regroup(a: seq<Message>, m: seq<Message>, b: seq<Message>)
    requires a == [] || m == []
    ensures a + m + b == m + (a + b)
  {
  }

  // ---- Selection ----

  /** `abs` on 64 bits, wrapping: the least value has no counterpart and stays itself. */
  function Abs(n: Long): Long { if n == LONG_MIN then n else if n < 0 then -n else n }

  predicate Matches(m: Message, selector: Long) {
    if selector == 0 then true else if selector > 0 then m.mtype == selector else m.mtype <= Abs(selector)
  }

  /** `a` is preferred to `b` although it stands later: only a lower type under a negative selector. */
  predicate Overtakes(a: Message, b: Message, selector: Long) { selector < 0 && a.mtype < b.mtype }

  /** The best match among the first n messages. */
  function Find(ms: seq<Message>, selector: Long, n: nat): Option<nat>
    requires n <= |ms|
    ensures Find(ms, selector, n).Some? ==> Find(ms, selector, n).value < n
  {
    if n == 0 then None
    else
      var best := Find(ms, selector, n - 1);
      if !Matches(ms[n - 1], selector) then best
      else if best == None || Overtakes(ms[n - 1], ms[best.value], selector) then Some(n - 1)
      else best
  }

  /** The index found is of a match of least type (under a negative selector), and the first such; none
      is found only when none matches. */
  lemma {:induction false} FindExactly(ms: seq<Message>, selector: Long, n: nat)
    requires n <= |ms|
    ensures Find(ms, selector, n) == None <==> forall i | 0 <= i < n :: !Matches(ms[i], selector)
    ensures var r := Find(ms, selector, n);
            r.Some? ==>
              && Matches(ms[r.value], selector)
              && (forall i | 0 <= i < n && Matches(ms[i], selector) && selector < 0 :: ms[r.value].mtype <= ms[i].mtype)
              && (forall i | 0 <= i < r.value && Matches(ms[i], selector) ::
                    selector < 0 && ms[r.value].mtype < ms[i].mtype)
  {
    if n > 0 { FindExactly(ms, selector, n - 1); }
  }

  /** So it is the first message of its own type. */
  lemma FindsFirstOfType(ms: seq<Message>, selector: Long)
    requires Find(ms, selector, |ms|).Some?
    ensures var k := Find(ms, selector, |ms|).value; forall i | 0 <= i < k :: ms[i].mtype != ms[k].mtype
  {
    FindExactly(ms, selector, |ms|);
  }

  /** What msgrcv promises for a selector: any message, one of the type, or one of a type up to its
      absolute value. */
  predicate Asked(m: Message, selector: Long) {
    if selector == 0 then true else if selector > 0 then m.mtype == selector else m.mtype as int <= -(selector as int)
  }

  /** The first of the messages asked for, or of those of least type under a negative selector. */
  ghost predicate Selects(ms: seq<Message>, selector: Long, r: Option<nat>) {
    match r
    case None => forall i | 0 <= i < |ms| :: !Asked(ms[i], selector)
    case Some(k) =>
      && k < |ms| && Asked(ms[k], selector)
      && (forall i | 0 <= i < |ms| && Asked(ms[i], selector) && selector < 0 :: ms[k].mtype <= ms[i].mtype)
      && (forall i | 0 <= i < k && Asked(ms[i], selector) :: selector < 0 && ms[k].mtype < ms[i].mtype)
  }

  /** The selection is the promised one exactly when the selector is not LONG_MIN, the queue is empty, or
      it holds a message of type LONG_MIN. */
  lemma SelectsExactly(ms: seq<Message>, selector: Long)
    ensures Selects(ms, selector, Find(ms, selector, |ms|)) <==>
              selector != LONG_MIN || ms == [] || exists i :: 0 <= i < |ms| && ms[i].mtype == LONG_MIN
  {
    FindExactly(ms, selector, |ms|);
    if selector == LONG_MIN && ms != [] {
      assert Asked(ms[0], selector);
    }
  }

  /** A message of type 1 is asked for by LONG_MIN and not found. */
  lemma LongMinFindsNone(m: Message)
    requires m.mtype == 1
    ensures Asked(m, LONG_MIN) && Find([m], LONG_MIN, 1) == None
  {
    FindExactly([m], LONG_MIN, 1);
  }

  class MsgQueue {
    var messages: seq<Message>
    var cbytes: nat
    var qnum: nat
    var qbytes: nat
    /** All messages ever accepted and ever delivered, in order. */
    ghost var sent: seq<Message>
    ghost var received: seq<Message>

    ghost predicate Valid()
      reads this
    {
      && cbytes == Bytes(messages) && qnum == |messages|
      && forall ty {:trigger OfType(sent, ty)} :: OfType(received, ty) + OfType(messages, ty) == OfType(sent, ty)
    }

    constructor ()
      ensures Valid() && messages == [] && qbytes == MSGMNB && sent == [] && received == []
    {
      messages, cbytes, qnum, qbytes, sent, received := [], 0, 0, MSGMNB, [], [];
    }

    predicate CanSend(size: nat)
      reads this
    {
      cbytes + size <= qbytes && size <= MSGMAX
    }

    method Send(m: Message) returns (r: Result<Unit>)
      requires Valid()
      modifies this`messages, this`cbytes, this`qnum, this`sent
      ensures Valid()
      ensures r == (if Bytes(old(messages)) + |m.text| <= qbytes && |m.text| <= MSGMAX then Ok(Unit) else Err(EAGAIN))
      ensures r.Err? ==> messages == old(messages) && sent == old(sent)
      ensures r.Ok? ==> messages == old(messages) + [m] && sent == old(sent) + [m]
    {
      if !CanSend(|m.text|) { return Err(EAGAIN); }
      forall ty ensures OfType(received, ty) + OfType(messages + [m], ty) == OfType(sent + [m], ty) {
        Accepted(messages, received, sent, m, ty);
      }
      assert (messages + [m])[..|messages|] == messages;
      messages := messages + [m];
      cbytes := cbytes + |m.text|;
      qnum := qnum + 1;
      sent := sent + [m];
      return Ok(Unit);
    }

    method Receive(selector: Long, nowait: bool) returns (r: Result<Message>)
      requires Valid()
      modifies this`messages, this`cbytes, this`qnum, this`received
      ensures Valid()
      ensures var k := Find(old(messages), selector, |old(messages)|);
              && r == (if k.Some? then Ok(old(messages)[k.value]) else Err(if nowait then ENOMSG else EAGAIN))
              && messages == (if k.Some? then old(messages)[..k.value] + old(messages)[k.value + 1..]
                  else old(messages))
      ensures received == (if r.Ok? then old(received) + [r.value] else old(received))
    {
      var index := Find(messages, selector, |messages|);
      if index == None { return Err(if nowait then ENOMSG else EAGAIN); }
      var k := index.value;
      var m := messages[k];
      FindsFirstOfType(messages, selector);
      ghost var rest := messages[..k] + messages[k + 1..];
      forall ty ensures OfType(received + [m], ty) + OfType(rest, ty) == OfType(sent, ty) {
        Delivered(messages, received, sent, k, ty);
      }
      TakeFirst(messages, k, 0);
      messages := messages[..k] + messages[k + 1..];
      cbytes := cbytes - |m.text|;
      qnum := qnum - 1;
      received := received + [m];
      return Ok(m);
    }
  }

  lemma Accepted(ms: seq<Message>, received: seq<Message>, sent: seq<Message>, m: Message, ty: int)
    requires OfType(received, ty) + OfType(ms, ty) == OfType(sent, ty)
    ensures OfType(received, ty) + OfType(ms + [m], ty) == OfType(sent + [m], ty)
  {
    assert (ms + [m])[..|ms|] == ms && (sent + [m])[..|sent|] == sent;
    Associate(OfType(received, ty), OfType(ms, ty), One(m, ty));
  }

  lemma Delivered(ms: seq<Message>, received: seq<Message>, sent: seq<Message>, k: nat, ty: int)
    requires k < |ms| && (forall i | 0 <= i < k :: ms[i].mtype != ms[k].mtype)
    requires OfType(received, ty) + OfType(ms, ty) == OfType(sent, ty)
    ensures OfType(received + [ms[k]], ty) + OfType(ms[..k] + ms[k + 1..], ty) == OfType(sent, ty)
  {
    TakeFirst(ms, k, ty);
    assert (received + [ms[k]])[..|received|] == received;
    Associate(OfType(received, ty), One(ms[k], ty), OfType(ms[..k] + ms[k + 1..], ty));
  }

  lemma Associate(a: seq<Message>, b: seq<Message>, c: seq<Message>)
    ensures (a + b) + c == a + (b + c)
  {
  }
}
