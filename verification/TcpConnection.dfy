/** The output side of a connection: direct writes, the output buffer, write interest and half-close. */
module TcpConnection {
  import opened OutputBuffer

  datatype State = Connecting | Connected | Disconnecting | Disconnected

  /** What a write to the socket comes to: so many bytes taken, or an error, which is fatal for a broken connection. */
  datatype Kernel = Wrote(n: nat) | Failed(fatal: bool)

  /** `written`: bytes the kernel took; `given`: bytes passed to sendInLoop; `fault`: a send met a fatal error. */
  datatype Conn = Conn(
    state: State, buffered: seq<byte>, writing: bool, shut: bool, written: seq<byte>, given: seq<byte>, fault: bool)

  function SentInLoop(c: Conn, data: seq<byte>, k: Kernel): Conn
    requires k.Wrote? ==> k.n <= |data|
  {
    var direct := !c.writing && c.buffered == [];
    var n := if direct && k.Wrote? then k.n else 0;
    var fatal := direct && k.Failed? && k.fatal;
    var keep := !fatal && n < |data|;
    c.(written := c.written + data[..n], given := c.given + data, fault := c.fault || fatal,
       buffered := if keep then c.buffered + data[n..] else c.buffered, writing := c.writing || keep)
  }

  function ShutInLoop(c: Conn): Conn { if c.writing then c else c.(shut := true) }

  function HandledWrite(c: Conn, k: Kernel): Conn
    requires k.Wrote? ==> k.n <= |c.buffered|
  {
    if c.writing && k.Wrote? && k.n > 0 then
      var d := c.(written := c.written + c.buffered[..k.n], buffered := c.buffered[k.n..]);
      if d.buffered != [] then d
      else
        var e := d.(writing := false);
        if e.state == Disconnecting then ShutInLoop(e) else e
    else c
  }

  datatype Event =
    | Establish
    | Send(data: seq<byte>, k: Kernel)
    | Writable(k: Kernel)
    | Shutdown
    | QueuedShutdown   // shutdownInLoop, run by the loop some time after shutdown()
    | Close
    | Destroy

  predicate Enabled(c: Conn, e: Event) {
    match e
    case Establish => c.state == Connecting
    case Send(data, k) => k.Wrote? ==> k.n <= |data|
    case Writable(k) => k.Wrote? ==> k.n <= |c.buffered|
    case _ => true
  }

  function Next(c: Conn, e: Event): Conn
    requires Enabled(c, e)
  {
    match e
    case Establish => c.(state := Connected)
    case Send(data, k) => SentInLoop(c, data, k)
    case Writable(k) => HandledWrite(c, k)
    case Shutdown => if c.state == Connected then c.(state := Disconnecting) else c
    case QueuedShutdown => ShutInLoop(c)
    case Close => c.(state := Disconnected, writing := false)
    case Destroy => if c.state == Connected then c.(state := Disconnected, writing := false) else c
  }

  const Fresh := Conn(Connecting, [], false, false, [], [], false)

  /** The states a connection passes through. */
  ghost predicate IsRun(cs: seq<Conn>, es: seq<Event>) {
    && |cs| == |es| + 1 && cs[0] == Fresh
    && forall i {:trigger es[i]} :: 0 <= i < |es| ==> Enabled(cs[i], es[i]) && cs[i + 1] == Next(cs[i], es[i])
  }

  ghost predicate Kept(c: Conn) {
    && (!c.fault ==> c.written + c.buffered == c.given)
    && (c.state != Disconnected ==> (c.writing <==> c.buffered != []))
  }

  lemma SplitAt(written: seq<byte>, buffered: seq<byte>, n: nat)
    requires n <= |buffered|
    ensures written + buffered[..n] + buffered[n..] == written + buffered
  {
    assert buffered == buffered[..n] + buffered[n..];
  }

  lemma SendKeeps(c: Conn, data: seq<byte>, k: Kernel)
    requires Kept(c) && (k.Wrote? ==> k.n <= |data|)
    ensures Kept(SentInLoop(c, data, k))
  {
    var n := if !c.writing && c.buffered == [] && k.Wrote? then k.n else 0;
    SplitAt(c.written, data, n);
    assert c.written + c.buffered + data == c.written + (c.buffered + data);
    assert n == 0 ==> data[..n] == [] && data[n..] == data && c.written + [] == c.written;
    assert c.buffered == [] ==> c.buffered + data[n..] == data[n..] && c.written + c.buffered == c.written;
    assert n == |data| ==> data[..n] == data && c.written + data + [] == c.written + data;
  }

  lemma WriteKeeps(c: Conn, k: Kernel)
    requires Kept(c) && (k.Wrote? ==> k.n <= |c.buffered|)
    ensures Kept(HandledWrite(c, k))
  {
    if k.Wrote? { SplitAt(c.written, c.buffered, k.n); }
  }

  lemma StepKeeps(c: Conn, e: Event)
    requires Kept(c) && Enabled(c, e)
    ensures Kept(Next(c, e))
  {
    match e
    case Send(data, k) => SendKeeps(c, data, k);
    case Writable(k) => WriteKeeps(c, k);
    case _ =>
  }

  lemma {:induction false} RunKeeps(cs: seq<Conn>, es: seq<Event>, i: nat)
    requires IsRun(cs, es) && i < |cs|
    ensures Kept(cs[i])
  {
    if i > 0 {
      RunKeeps(cs, es, i - 1);
      var e := es[i - 1];
      StepKeeps(cs[i - 1], e);
    }
  }

  /** Until a fatal write error the bytes taken by the kernel, then those buffered, are the bytes sent, in order. */
  lemma OutputInOrder(cs: seq<Conn>, es: seq<Event>, i: nat)
    requires IsRun(cs, es) && i < |cs| && !cs[i].fault
    ensures cs[i].written + cs[i].buffered == cs[i].given && cs[i].written <= cs[i].given
  {
    RunKeeps(cs, es, i);
  }

  /** Until the connection is closed, write interest is on exactly while bytes wait. */
  lemma InterestIffBuffered(cs: seq<Conn>, es: seq<Event>, i: nat)
    requires IsRun(cs, es) && i < |cs| && cs[i].state != Disconnected
    ensures cs[i].writing <==> cs[i].buffered != []
  {
    RunKeeps(cs, es, i);
  }

  /** A step that shuts the write side leaves bytes behind exactly if the connection was closed with bytes
      waiting; otherwise, barring a fatal write error, every byte sent has been handed over. */
  lemma ShutLeavesBytesIff(cs: seq<Conn>, es: seq<Event>, i: nat)
    requires IsRun(cs, es) && i < |es| && !cs[i].shut && cs[i + 1].shut
    ensures cs[i + 1].buffered != [] <==> cs[i].state == Disconnected && cs[i].buffered != []
    ensures cs[i + 1].buffered == [] && !cs[i].fault ==> cs[i + 1].written == cs[i + 1].given
  {
    RunKeeps(cs, es, i);
    RunKeeps(cs, es, i + 1);
    var e := es[i];
    assert cs[i + 1] == Next(cs[i], e);
  }

  /** An open connection is shut only after every byte has been handed over. */
  lemma ShutOnlyWhenDrained(cs: seq<Conn>, es: seq<Event>, i: nat)
    requires IsRun(cs, es) && i < |es| && cs[i].state != Disconnected && !cs[i].shut && cs[i + 1].shut
    ensures cs[i + 1].buffered == [] && (!cs[i].fault ==> cs[i + 1].written == cs[i + 1].given)
  {
    ShutLeavesBytesIff(cs, es, i);
  }

  /** The other case happens: for any bytes that the kernel does not take, a queued shutdown that runs after the
      connection was closed shuts it with those bytes waiting. */
  lemma LateShutdown(data: seq<byte>) returns (cs: seq<Conn>, es: seq<Event>)
    requires data != []
    ensures IsRun(cs, es) && |es| == 5 && cs[5].shut && !cs[4].shut && cs[5].buffered == data
  {
    es := [Establish, Send(data, Failed(false)), Shutdown, Close, QueuedShutdown];
    var c1 := Next(Fresh, es[0]);
    var c2 := Next(c1, es[1]);
    var c3 := Next(c2, es[2]);
    var c4 := Next(c3, es[3]);
    assert c2.buffered == data by { assert [] + data[0..] == data; }
    cs := [Fresh, c1, c2, c3, c4, Next(c4, es[4])];
  }

  /** The bytes the kernel takes in a step: of a send only if nothing waits, of the buffer only with write interest on. */
  function Taken(c: Conn, e: Event): seq<byte>
    requires Enabled(c, e)
  {
    match e
    case Send(data, Wrote(n)) => if !c.writing && c.buffered == [] then data[..n] else []
    case Writable(Wrote(n)) => if c.writing then c.buffered[..n] else []
    case _ => []
  }

  /** Step by step: what the kernel takes is written, what is sent is given, and only a fatal error on a direct write
      is a fault. */
  lemma StepAccounts(cs: seq<Conn>, es: seq<Event>, i: nat)
    requires IsRun(cs, es) && i < |es|
    ensures var e, c, d := es[i], cs[i], cs[i + 1];
            && Enabled(c, e) && d.written == c.written + Taken(c, e)
            && d.given == c.given + (if e.Send? then e.data else [])
            && (d.fault <==> c.fault || (e.Send? && !c.writing && c.buffered == [] && e.k == Failed(true)))
  {
    var e, c := es[i], cs[i];
    assert Enabled(c, e) && cs[i + 1] == Next(c, e);
    assert c.written + [] == c.written && c.given + [] == c.given;
    if e.Send? { assert e.data[..0] == []; }
    if e.Writable? { assert c.buffered[..0] == []; }
  }

  /** A connection asked to shut is shut as soon as its last byte is taken, or by the queued shutdown if none waits. */
  lemma DrainedIsShut(cs: seq<Conn>, es: seq<Event>, i: nat)
    requires IsRun(cs, es) && i < |es| && cs[i].state == Disconnecting
    ensures cs[i].buffered != [] && cs[i + 1].buffered == [] ==> cs[i + 1].shut
    ensures cs[i].buffered == [] && es[i] == QueuedShutdown ==> cs[i + 1].shut
  {
    RunKeeps(cs, es, i);
    var e, c := es[i], cs[i];
    assert Enabled(c, e) && cs[i + 1] == Next(c, e);
  }

  function Rank(s: State): int {
    match s
    case Connecting => 0
    case Connected => 1
    case Disconnecting => 2
    case Disconnected => 3
  }

  /** A connection only ever goes on from connecting to connected to disconnecting to disconnected, and a write side
      once shut stays shut; once closed it is disconnected for good. */
  lemma {:induction false} StatesOnlyAdvance(cs: seq<Conn>, es: seq<Event>, i: nat, j: nat)
    requires IsRun(cs, es) && i <= j <= |es|
    ensures Rank(cs[i].state) <= Rank(cs[j].state) && (cs[i].shut ==> cs[j].shut)
    ensures (exists m :: i <= m < j && es[m] == Close) ==> cs[j].state == Disconnected
    decreases j
  {
    if i < j {
      StatesOnlyAdvance(cs, es, i, j - 1);
      var c, e := cs[j - 1], es[j - 1];
      assert Enabled(c, e) && cs[j] == Next(c, e);
    }
  }

  /** A half-close that was asked for takes effect: after shutdown() on a connected connection and the queued call that
      follows it, the write side is shut whenever nothing waits, unless the connection is closed meanwhile. */
  lemma {:induction false} ShutdownTakesEffect(cs: seq<Conn>, es: seq<Event>, i: nat, j: nat, k: nat)
    requires IsRun(cs, es) && i < j < k <= |es| && es[i] == Shutdown && cs[i].state == Connected && es[j] == QueuedShutdown
    requires forall m :: i <= m < k ==> es[m] != Close
    ensures cs[k].state == Disconnecting && (cs[k].buffered == [] ==> cs[k].shut)
    decreases k
  {
    StaysAsked(cs, es, i, k - 1);
    var c, e := cs[k - 1], es[k - 1];
    assert Enabled(c, e) && cs[k] == Next(c, e);
    RunKeeps(cs, es, k - 1);
    RunKeeps(cs, es, k);
    if j < k - 1 { ShutdownTakesEffect(cs, es, i, j, k - 1); }
  }

  lemma {:induction false} StaysAsked(cs: seq<Conn>, es: seq<Event>, i: nat, k: nat)
    requires IsRun(cs, es) && i < k <= |es| && es[i] == Shutdown && cs[i].state == Connected
    requires forall m :: i <= m < k ==> es[m] != Close
    ensures cs[k].state == Disconnecting
    decreases k
  {
    if i < k - 1 { StaysAsked(cs, es, i, k - 1); }
    var c, e := cs[k - 1], es[k - 1];
    assert Enabled(c, e) && cs[k] == Next(c, e);
  }

  class TcpConnection {
    var state: State
    var writing: bool
    const output: Buffer
    ghost var shut: bool
    ghost var written: seq<byte>
    ghost var given: seq<byte>
    ghost var fault: bool

    ghost predicate Valid()
      reads this, output
    {
      output.Valid()
    }

    ghost function View(): Conn
      requires Valid()
      reads this, output, output.bytes
    {
      Conn(state, output.Contents(), writing, shut, written, given, fault)
    }

    constructor ()
      ensures Valid() && View() == Fresh && fresh(output) && fresh(output.bytes)
    {
      state, writing := Connecting, false;
      output := new Buffer(1024);
      shut, written, given, fault := false, [], [], false;
    }

    /** Writes directly when nothing waits, and buffers what the kernel does not take. */
    method SendInLoop(data: seq<byte>, k: Kernel)
      requires Valid() && (k.Wrote? ==> k.n <= |data|)
      modifies this, output, output.bytes
      ensures Valid() && View() == SentInLoop(old(View()), data, k)
    {
      ghost var c := View();
      var nwrote := 0;
      var remaining := |data|;
      var faultError := false;
      if !writing && output.ReadableBytes() == 0 {
        match k {
          case Wrote(n) =>
            nwrote := n;
            remaining := |data| - n;
          case Failed(fatal) =>
            if fatal { faultError := true; }
        }
      }
      written, given, fault := written + data[..nwrote], given + data, fault || faultError;
      ghost var direct := !c.writing && c.buffered == [];
      assert nwrote == (if direct && k.Wrote? then k.n else 0);
      assert faultError == (direct && k.Failed? && k.fatal);
      assert output.Contents() == c.buffered;
      if !faultError && remaining > 0 {
        output.Append(data[nwrote..]);
        if !writing { writing := true; }
      }
    }

    method ShutdownInLoop()
      requires Valid()
      modifies this`shut
      ensures Valid() && View() == ShutInLoop(old(View()))
    {
      if !writing { shut := true; }
    }

    /** Hands the kernel more of the buffer; drops write interest, and half-closes if asked to, once it is empty. */
    method HandleWrite(k: Kernel)
      requires Valid() && (k.Wrote? ==> k.n <= |output.Contents()|)
      modifies this, output
      ensures Valid() && View() == HandledWrite(old(View()), k)
    {
      if writing {
        match k {
          case Wrote(n) =>
            if n > 0 {
              written := written + output.Contents()[..n];
              output.Retrieve(n);
              if output.ReadableBytes() == 0 {
                writing := false;
                if state == Disconnecting { ShutdownInLoop(); }
              }
            }
          case Failed(_) =>
        }
      }
    }

    method ConnectEstablished()
      requires Valid() && state == Connecting
      modifies this`state
      ensures Valid() && View() == Next(old(View()), Establish)
    {
      state := Connected;
    }

    /** Asks for the half-close; the loop runs `ShutdownInLoop` for it later. */
    method Shut()
      requires Valid()
      modifies this`state
      ensures Valid() && View() == Next(old(View()), Shutdown)
    {
      if state == Connected { state := Disconnecting; }
    }

    method ConnectDestroyed()
      requires Valid()
      modifies this`state, this`writing
      ensures Valid() && View() == Next(old(View()), Destroy)
    {
      if state == Connected {
        state := Disconnected;
        writing := false;
      }
    }

    method HandleClose()
      requires Valid()
      modifies this`state, this`writing
      ensures Valid() && View() == Next(old(View()), Close)
    {
      state := Disconnected;
      writing := false;
    }
  }
}
