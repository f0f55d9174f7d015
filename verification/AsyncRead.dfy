/** Asynchronous reading of files (file.c): a long read is delivered in small callbacks, one per
    turn of the event loop, while everything that would move the position is refused. */
module AsyncRead {
  import opened Wrappers

  const READ_LENGTH: nat := 62          // of one synchronous read
  const READ_ASYNC_LENGTH: nat := 60    // of one callback
  const WRITE_LENGTH: nat := 61
  const INT64_MAX: nat := 0x7fff_ffff_ffff_ffff

  datatype Result = Success | OutOfRange | InvalidOperation | InternalError | OperationAborted | Failure

  datatype Callback = Callback(result: Result, data: seq<Byte>)

  /** How read(2) turns out: it may return less than was asked for, and returns nothing only at
      the end of the file. */
  datatype Answer = Bytes(n: nat) | Interrupted | WouldBlock | Error

  /** All bytes in the callbacks, in their order. */
  function Delivered(callbacks: seq<Callback>): seq<Byte> {
    if callbacks == [] then [] else Delivered(callbacks[..|callbacks| - 1]) + callbacks[|callbacks| - 1].data
  }

  lemma DeliveredNext(callbacks: seq<Callback>, from: nat, c: Callback)
    requires from <= |callbacks|
    ensures Delivered((callbacks + [c])[from..]) == Delivered(callbacks[from..]) + c.data
  {
    assert (callbacks + [c])[from..][..|callbacks| - from] == callbacks[from..];
  }

  /** The n bytes of a file from a position on; none, wherever that is, if n is zero. */
  ghost predicate PartOf(part: seq<Byte>, content: seq<Byte>, position: nat) {
    part != [] ==> position + |part| <= |content| && part == content[position..position + |part|]
  }

  lemma PartsJoin(a: seq<Byte>, b: seq<Byte>, content: seq<Byte>, position: nat)
    requires PartOf(a, content, position) && PartOf(b, content, position + |a|)
    ensures PartOf(a + b, content, position)
  {
    if a != [] && b != [] {
      assert content[position..position + |a| + |b|] ==
               content[position..position + |a|] + content[position + |a|..position + |a| + |b|];
    } else if b == [] {
      assert a + b == a;
    } else {
      assert a + b == b;
    }
  }

  /** Writing at a position; a gap behind the end is filled with zeros. */
  function Written(content: seq<Byte>, position: nat, data: seq<Byte>): seq<Byte> {
    if data == [] then content
    else if |content| < position then content + seq(position - |content|, _ => 0) + data
    else if |content| <= position + |data| then content[..position] + data
    else content[..position] + data + content[position + |data|..]
  }

  class File {
    var content: seq<Byte>
    var position: nat
    var inProgress: bool
    var left: nat                     // length_to_read_async
    var registered: bool              // the eventfd is in the event loop
    var sent: seq<Callback>           // callbacks sent to the client, oldest first

    ghost var start: nat              // position at which the asynchronous read began
    ghost var requested: nat
    ghost var before: nat             // callbacks sent before it began
    ghost var refused: bool           // the event loop did not take the eventfd

    /** What the asynchronous read has delivered so far. */
    ghost function Got(): seq<Byte>
      reads this
    {
      if before <= |sent| then Delivered(sent[before..]) else []
    }

    /** Bytes delivered and bytes left add up to the bytes requested; what was delivered is the
        part of the file from the start of the read to the position; no callback is too long. */
    ghost predicate Contiguous()
      reads this
    {
      && |Got()| + left == requested && position == start + |Got()|
      && PartOf(Got(), content, start)
    }

    /** The event source is registered exactly while a read is in progress, unless the event
        loop did not take it: then the read never ends by itself. */
    ghost predicate Valid()
      reads this
    {
      && before <= |sent|
      && (forall c | c in sent :: |c.data| <= READ_ASYNC_LENGTH && (c.data != [] ==> c.result.Success?))
      && (inProgress <==> registered || refused) && !(registered && refused)
      && (if inProgress then Contiguous() else left == 0)
    }

    constructor (content: seq<Byte>)
      ensures Valid() && this.content == content && position == 0 && !inProgress && sent == []
    {
      this.content, position, inProgress, left, registered, sent := content, 0, false, 0, false, [];
      start, requested, before, refused := 0, 0, 0, false;
    }

    /** A result that carries no data is sent. */
    method Report(r: Result)
      requires before <= |sent|
      modifies `sent
      ensures sent == old(sent) + [Callback(r, [])] && before <= |sent| && Got() == old(Got())
    {
      DeliveredNext(sent, before, Callback(r, []));
      sent := sent + [Callback(r, [])];
    }

    /** read(2) can return this many bytes. */
    predicate CanRead(length: nat, a: Answer)
      reads this
    {
      a.Bytes? ==> a.n <= length && (a.n > 0 ==> position + a.n <= |content|)
                   && (a.n == 0 ==> length == 0 || position >= |content|)
    }

    method Read(n: nat) returns (data: seq<Byte>)
      requires n > 0 ==> position + n <= |content|
      modifies `position
      ensures |data| == n && PartOf(data, content, old(position)) && position == old(position) + n
    {
      data := if n > 0 then content[position..position + n] else [];
      position := position + n;
    }

    /** file_read_async. When the event loop does not take the event source, the client is told,
        but the read stays in progress. */
    method ReadAsync(length: nat, added: bool)
      requires Valid()
      modifies this
      ensures Valid() && content == old(content) && position == old(position)
      ensures if length > INT64_MAX || old(inProgress) then
                && sent == old(sent) + [Callback(if length > INT64_MAX then OutOfRange else InvalidOperation, [])]
                && inProgress == old(inProgress) && left == old(left) && registered == old(registered)
                && Got() == old(Got()) && start == old(start) && requested == old(requested) && refused == old(refused)
              else
                && inProgress && left == requested == length && Got() == [] && start == position
                && registered == added && refused == !added
                && sent == if added then old(sent) else old(sent) + [Callback(InternalError, [])]
    {
      hide Delivered, PartOf;
      if length > INT64_MAX {
        Report(OutOfRange);
        return;
      }
      if inProgress {
        Report(InvalidOperation);
        return;
      }
      Begin(length, added);
    }

    method Begin(length: nat, added: bool)
      requires Valid() && !inProgress && length <= INT64_MAX
      modifies this
      ensures Valid() && content == old(content) && position == old(position)
      ensures inProgress && left == requested == length && Got() == [] && start == position && registered == added
              && refused == !added
      ensures sent == if added then old(sent) else old(sent) + [Callback(InternalError, [])]
    {
      inProgress, left := true, length;
      start, requested, before := position, length, |sent|;
      assert sent[before..] == [];
      if !added {
        refused := true;
        Report(InternalError);
        return;
      }
      registered := true;
    }

    method Finish()
      modifies `inProgress, `left, `registered, `refused
      ensures !inProgress && !registered && left == 0 && !refused
    {
      inProgress, left, registered, refused := false, 0, false, false;
    }

    /** file_handle_async_read, on an event of the eventfd. */
    method HandleEvent(a: Answer)
      requires Valid() && (inProgress ==> registered)
      requires CanRead(if left < READ_ASYNC_LENGTH then left else READ_ASYNC_LENGTH, a)
      modifies this
      ensures Valid() && content == old(content) && start == old(start) && requested == old(requested)
      ensures inProgress ==> registered
      ensures !old(inProgress) || a.Interrupted? ==>
                sent == old(sent) && inProgress == old(inProgress) && position == old(position)
      ensures old(inProgress) && a.Interrupted? ==> left == old(left) && Got() == old(Got())
      ensures old(inProgress) && a.Error? ==>
                !inProgress && sent == old(sent) + [Callback(Failure, [])] && position == old(position)
                  && Got() == old(Got())
      ensures old(inProgress) && (a.Bytes? || a.WouldBlock?) ==>
                && var n := if a.Bytes? then a.n else 0;
                && |sent| == |old(sent)| + 1 && sent[..|old(sent)|] == old(sent)
                && sent[|old(sent)|].result.Success? && |sent[|old(sent)|].data| == n <= 60
                && Got() == old(Got()) + sent[|old(sent)|].data && PartOf(Got(), content, start)
                && position == start + |Got()|
                && (inProgress <==> 0 < n < old(left)) && left == (if inProgress then old(left) - n else 0)
    {
      hide Delivered, PartOf;
      if !inProgress {
        registered := false;
        return;
      }
      var length := READ_ASYNC_LENGTH;
      if length > left {
        length := left;
      }
      assert CanRead(length, a);
      if a.Interrupted? {
        return;
      }
      if a.Error? {
        Finish();
        Report(Failure);
        return;
      }
      Deliver(if a.Bytes? then a.n else 0);
    }

    /** The next n bytes go to the client. */
    method Deliver(n: nat)
      requires Valid() && inProgress && registered && n <= left && n <= READ_ASYNC_LENGTH
               && (n > 0 ==> position + n <= |content|)
      modifies this
      ensures Valid() && content == old(content) && start == old(start) && requested == old(requested)
      ensures |sent| == |old(sent)| + 1 && sent[..|old(sent)|] == old(sent)
      ensures sent[|old(sent)|].result.Success? && |sent[|old(sent)|].data| == n
      ensures Got() == old(Got()) + sent[|old(sent)|].data && PartOf(Got(), content, start)
              && position == start + |Got()|
      ensures (inProgress <==> 0 < n < old(left)) && left == (if inProgress then old(left) - n else 0)
      ensures inProgress ==> registered
    {
      hide Delivered, PartOf;
      var data := Read(n);
      left := left - |data|;
      PartsJoin(Got(), data, content, start);
      DeliveredNext(sent, before, Callback(Success, data));
      if |data| == 0 || left == 0 {
        Finish();
      }
      sent := sent + [Callback(Success, data)];
    }

    /** file_abort_async_read; the way out of a read that never ends, too. */
    method Abort()
      requires Valid()
      modifies this
      ensures Valid() && !inProgress && content == old(content) && position == old(position)
      ensures sent == if old(inProgress) then old(sent) + [Callback(OperationAborted, [])] else old(sent)
      ensures start == old(start) && Got() == old(Got())
    {
      hide Delivered, PartOf;
      if inProgress {
        Finish();
        Report(OperationAborted);
      }
    }

    /** file_read_. */
    method ReadSync(length: nat, a: Answer) returns (e: Result, data: seq<Byte>)
      requires Valid() && CanRead(length, a)
      modifies `position
      ensures Valid()
      ensures e == if length > READ_LENGTH then OutOfRange else if inProgress then InvalidOperation
                   else if a.Error? || a.Interrupted? then Failure else Success
      ensures if e.Success? then
                && PartOf(data, content, old(position)) && position == old(position) + |data| && |data| <= length
                && |data| == (if a.Bytes? then a.n else 0)
                && forall k | 0 <= k < |data| :: position <= |content| && data[k] == content[old(position) + k]
              else position == old(position)
    {
      data := [];
      if length > READ_LENGTH {
        return OutOfRange, data;
      }
      if inProgress {
        return InvalidOperation, data;
      }
      if a.Error? || a.Interrupted? {
        return Failure, data;
      }
      data := Read(if a.Bytes? then a.n else 0);
      e := Success;
    }

    /** file_write_; n is how much write(2) writes, if it succeeds: these bytes replace what was there,
        and the rest of the file stays. */
    method Write(data: seq<Byte>, succeeds: bool, n: nat) returns (e: Result)
      requires Valid() && n <= |data|
      modifies `content, `position
      ensures Valid()
      ensures e == if |data| > WRITE_LENGTH then OutOfRange else if inProgress then InvalidOperation
                   else if !succeeds then Failure else Success
      ensures if e.Success? then
                && position == old(position) + n
                && |content| == (if n > 0 && old(position) + n > |old(content)| then old(position) + n
                                 else |old(content)|)
                && forall k | 0 <= k < |content| ::
                     content[k] == if old(position) <= k < old(position) + n then data[k - old(position)]
                                   else if k < |old(content)| then old(content)[k] else 0
              else content == old(content) && position == old(position)
    {
      if |data| > WRITE_LENGTH {
        return OutOfRange;
      }
      if inProgress {
        return InvalidOperation;
      }
      if !succeeds {
        return Failure;
      }
      content, position := Written(content, position, data[..n]), position + n;
      e := Success;
    }

    /** file_set_position; target is where lseek goes, if it succeeds. */
    method SetPosition(target: nat, succeeds: bool) returns (e: Result)
      requires Valid()
      modifies `position
      ensures Valid()
      ensures e == if inProgress then InvalidOperation else if !succeeds then Failure else Success
      ensures position == if e.Success? then target else old(position)
    {
      if inProgress {
        return InvalidOperation;
      }
      if !succeeds {
        return Failure;
      }
      position := target;
      e := Success;
    }
  }

  // ----- runs -----

  datatype Event =
    | Begin(length: nat, added: bool)
    | Ready(a: Answer)
    | Abort
    | ReadSync(length: nat, answer: Answer)
    | Write(data: seq<Byte>, succeeds: bool, n: nat)
    | Seek(target: nat, moves: bool)

  predicate Possible(f: File, e: Event)
    reads f
  {
    match e
    case Begin(_, _) => true
    case Ready(a) => f.registered && f.CanRead(if f.left < READ_ASYNC_LENGTH then f.left else READ_ASYNC_LENGTH, a)
    case Abort => true
    case ReadSync(length, a) => f.CanRead(length, a)
    case Write(data, _, n) => n <= |data|
    case Seek(_, _) => true
  }

  /** One event, whatever it is: while a read is in progress and not yet done, nothing but the
      read itself moves the position, and nothing changes the file. */
  method Handle(f: File, e: Event)
    requires f.Valid() && Possible(f, e)
    modifies f
    ensures f.Valid()
    ensures old(f.inProgress) ==>
              f.content == old(f.content) && f.start == old(f.start) && f.position >= old(f.position)
    ensures old(f.inProgress) && !e.Ready? ==> f.position == old(f.position) && f.Got() == old(f.Got())
    ensures old(f.inProgress) ==> PartOf(f.Got(), f.content, f.start) && f.position == f.start + |f.Got()|
    ensures old(f.refused) && !e.Abort? ==>
              f.refused && f.inProgress && f.position == old(f.position) && f.Got() == old(f.Got())
    ensures old(f.sent) <= f.sent
  {
    hide Delivered;
    var r;
    match e
    case Begin(length, added) => f.ReadAsync(length, added);
    case Ready(a) => f.HandleEvent(a);
    case Abort => f.Abort();
    case ReadSync(length, a) =>
      var data;
      r, data := f.ReadSync(length, a);
    case Write(data, succeeds, n) => r := f.Write(data, succeeds, n);
    case Seek(target, moves) => r := f.SetPosition(target, moves);
  }

  /** Any run of events leaves the file in order. */
  method Run(f: File, events: seq<Event>)
    requires f.Valid()
    modifies f
    ensures f.Valid() && old(f.sent) <= f.sent
  {
    hide File.Valid, Possible;
    for i := 0 to |events|
      invariant f.Valid() && old(f.sent) <= f.sent
    {
      if Possible(f, events[i]) {
        Handle(f, events[i]);
      }
    }
  }

  /** What was written is read back. */
  method WriteAndRead(f: File, data: seq<Byte>, n: nat) returns (back: seq<Byte>)
    requires f.Valid() && !f.inProgress && n <= |data| <= WRITE_LENGTH
    modifies f
    ensures f.Valid() && back == data[..n] && f.position == old(f.position) + n
  {
    var start := f.position;
    var e := f.Write(data, true, n);
    e := f.SetPosition(start, true);
    e, back := f.ReadSync(n, Bytes(n));
  }

  function Smaller(a: int, b: int): nat { if a < b then (if a < 0 then 0 else a) else if b < 0 then 0 else b }

  /** A whole read without errors: when it has ended, the callbacks together are exactly the
      requested part of the file, or what there is of it. */
  method ReadWhole(f: File, length: nat, answers: seq<Answer>)
    requires f.Valid() && !f.inProgress && length <= INT64_MAX
    requires forall a | a in answers :: a.Bytes? || a.Interrupted?
    modifies f
    ensures f.Valid() && f.content == old(f.content) && f.start == old(f.position)
    ensures PartOf(f.Got(), f.content, f.start)
    ensures !f.inProgress ==> |f.Got()| == Smaller(length, |f.content| - f.start)
    ensures forall k | 0 <= k < |f.Got()| :: f.start + k < |f.content| && f.Got()[k] == f.content[f.start + k]
  {
    hide Delivered;
    f.ReadAsync(length, true);
    var i := 0;
    while i < |answers| && f.inProgress
      invariant i <= |answers| && f.Valid() && f.content == old(f.content) && f.start == old(f.position)
                && f.requested == length
      invariant f.inProgress ==> f.registered
      invariant PartOf(f.Got(), f.content, f.start)
      invariant !f.inProgress ==> |f.Got()| == Smaller(length, |f.content| - f.start)
    {
      var a := answers[i];
      assert a in answers;
      if f.CanRead(if f.left < READ_ASYNC_LENGTH then f.left else READ_ASYNC_LENGTH, a) {
        f.HandleEvent(a);
      }
      i := i + 1;
    }
  }
}
