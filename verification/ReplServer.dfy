/**
 Talking to one REPL process over a pipe: framing its output into lines and replies, importing the library once,
 and throwing the process away as soon as the stream can no longer be trusted.
 */
module ReplServer {

  import opened Options

  newtype Byte = x: int | 0 <= x < 256

  const NL: Byte := 10

  type Line = seq<Byte>

  predicate IsSpace(b: Byte) { b == 32 || 9 <= b <= 13 }

  predicate Blank(l: Line) { forall b | b in l :: IsSpace(b) }

  predicate Complete(ls: seq<Line>) { forall l | l in ls :: NL !in l }

  /** The lines, each ended by a newline. */
  function Join(ls: seq<Line>): seq<Byte> {
    if ls == [] then [] else ls[0] + [NL] + Join(ls[1..])
  }

  // ---- lines of a stream -----------------------------------------------------------------------------------

  function FirstBreak(s: seq<Byte>): (i: nat)
    requires NL in s
    ensures i < |s| && s[i] == NL && NL !in s[..i]
  {
    if s[0] == NL then 0 else 1 + FirstBreak(s[1..])
  }

  /** The complete lines of a stream. */
  function SplitLines(s: seq<Byte>): (ls: seq<Line>)
    ensures Complete(ls)
    decreases |s|
  {
    if NL !in s then [] else [s[..FirstBreak(s)]] + SplitLines(s[FirstBreak(s) + 1..])
  }

  /** What follows the last complete line. */
  function Rest(s: seq<Byte>): seq<Byte>
    decreases |s|
  {
    if NL !in s then s else Rest(s[FirstBreak(s) + 1..])
  }

  lemma JoinCons(line: Line, ls: seq<Line>, rest: seq<Byte>)
    ensures Join([line] + ls) + rest == line + [NL] + (Join(ls) + rest)
  {
    assert ([line] + ls)[1..] == ls;
  }

  lemma CutAtBreak(s: seq<Byte>)
    requires NL in s
    ensures s == s[..FirstBreak(s)] + [NL] + s[FirstBreak(s) + 1..]
  {
  }

  lemma {:induction false} SplitLosesNothing(s: seq<Byte>)
    ensures Join(SplitLines(s)) + Rest(s) == s && NL !in Rest(s)
    decreases |s|
  {
    if NL in s {
      var line, tail := s[..FirstBreak(s)], s[FirstBreak(s) + 1..];
      SplitLosesNothing(tail);
      calc {
        Join(SplitLines(s)) + Rest(s);
        Join([line] + SplitLines(tail)) + Rest(tail);
        { JoinCons(line, SplitLines(tail), Rest(tail)); }
        line + [NL] + (Join(SplitLines(tail)) + Rest(tail));
        line + [NL] + tail;
        { CutAtBreak(s); }
        s;
      }
    }
  }

  lemma {:induction false} FirstBreakIs(l: Line, s: seq<Byte>)
    requires NL !in l
    ensures NL in l + [NL] + s && FirstBreak(l + [NL] + s) == |l|
  {
    var t := l + [NL] + s;
    assert t[|l|] == NL;
    if l != [] {
      FirstBreakIs(l[1..], s);
      assert t[1..] == l[1..] + [NL] + s;
    }
  }

  lemma BreakIsUnread(buf: seq<Byte>, unread: seq<Byte>)
    requires NL !in buf
    ensures NL in buf + unread ==> unread != []
  {
    assert unread == [] ==> buf + unread == buf;
  }

  lemma SplitFirst(l: Line, s: seq<Byte>)
    requires NL !in l
    ensures SplitLines(l + [NL] + s) == [l] + SplitLines(s)
  {
    FirstBreakIs(l, s);
    var t := l + [NL] + s;
    assert t[..|l|] == l && t[|l| + 1..] == s;
  }

  /** A stream has one first line. */
  lemma FirstLineIsUnique(l: Line, s: seq<Byte>, m: Line, t: seq<Byte>)
    requires NL !in l && NL !in m && l + [NL] + s == m + [NL] + t
    ensures l == m && s == t
  {
    FirstBreakIs(l, s);
    FirstBreakIs(m, t);
    var u := l + [NL] + s;
    assert u[..|l|] == l && u[|l| + 1..] == s;
    assert (m + [NL] + t)[..|m|] == m && (m + [NL] + t)[|m| + 1..] == t;
  }

  // ---- the process ---------------------------------------------------------------------------------------------

  datatype Command = ImportLib | Sanity(env: int) | Code(text: string, env: int)

  /** What a command makes the process print: its reply, ended by a blank line, with blank lines around. */
  datatype Answer = Answer(before: seq<Line>, body: seq<Line>, sep: Line, after: seq<Line>)

  predicate AllBlank(ls: seq<Line>) { forall l | l in ls :: Blank(l) }

  predicate WellFramed(a: Answer) {
    && Complete(a.before) && (forall l | l in a.before :: White(l))
    && Complete(a.after) && (forall l | l in a.after :: White(l))
    && NL !in a.sep && White(a.sep)
    && a.body != [] && Complete(a.body) && forall l | l in a.body :: !White(l)
  }

  /** Nothing but spaces, tabs, carriage returns, vertical tabs and form feeds: a line has no line feed. */
  predicate White(l: Line) { forall b | b in l :: b == 32 || b == 9 || b == 10 || b == 11 || b == 12 || b == 13 }

  function Printed(a: Answer): seq<Byte> {
    Join(a.before) + Join(a.body) + Join([a.sep]) + Join(a.after)
  }

  /** A process answers its commands in order; `read` is how much of its output has been taken off the pipe. */
  datatype Process = Process(behave: seq<Command> -> Answer, received: seq<Command>, read: nat)

  function OutputTo(p: Process, n: nat): seq<Byte>
    requires n <= |p.received|
  {
    if n == 0 then [] else OutputTo(p, n - 1) + Printed(p.behave(p.received[..n]))
  }

  function Output(p: Process): seq<Byte> { OutputTo(p, |p.received|) }

  ghost predicate InOrder(p: Process) {
    p.read <= |Output(p)| && forall h :: WellFramed(p.behave(h))
  }

  lemma {:induction false} OutputSame(p: Process, q: Process, n: nat)
    requires n <= |p.received| && n <= |q.received|
    requires p.behave == q.behave && p.received[..n] == q.received[..n]
    ensures OutputTo(p, n) == OutputTo(q, n)
  {
    if n > 0 {
      assert p.received[..n - 1] == p.received[..n][..n - 1] && q.received[..n - 1] == q.received[..n][..n - 1];
      OutputSame(p, q, n - 1);
    }
  }

  function Told(p: Process, c: Command): Process { p.(received := p.received + [c]) }

  lemma TellingAppends(p: Process, c: Command)
    ensures Output(Told(p, c)) == Output(p) + Printed(p.behave(p.received + [c]))
  {
    var q := Told(p, c);
    assert q.received[..|q.received|] == q.received;
    assert p.received[..|p.received|] == p.received && q.received[..|p.received|] == p.received;
    OutputSame(p, q, |p.received|);
  }

  lemma UnreadGrows(p: Process, c: Command)
    requires p.read <= |Output(p)|
    ensures p.read <= |Output(Told(p, c))|
    ensures Output(Told(p, c))[p.read..] == Output(p)[p.read..] + Printed(p.behave(p.received + [c]))
  {
    TellingAppends(p, c);
  }

  lemma OutputIgnoresRead(p: Process, read: nat)
    ensures Output(p.(read := read)) == Output(p)
  {
    OutputSame(p, p.(read := read), |p.received|);
  }

  lemma {:induction false} JoinConcat(a: seq<Line>, b: seq<Line>)
    ensures Join(a + b) == Join(a) + Join(b)
  {
    if a == [] {
      assert a + b == b;
    } else {
      assert (a + b)[1..] == a[1..] + b;
      JoinConcat(a[1..], b);
    }
  }

  /** The lines still to come when a command's answer is awaited. */
  function Expected(left: seq<Line>, a: Answer): seq<Line> { left + a.before + a.body + [a.sep] + a.after }

  lemma Reassociate(a: seq<Byte>, b: seq<Byte>, c: seq<Byte>, d: seq<Byte>, e: seq<Byte>)
    ensures a + (b + c + d + e) == a + b + c + d + e
  {
  }

  lemma ExpectedJoins(left: seq<Line>, a: Answer)
    ensures Join(left) + Printed(a) == Join(Expected(left, a))
  {
    JoinConcat(left, a.before);
    JoinConcat(left + a.before, a.body);
    JoinConcat(left + a.before + a.body, [a.sep]);
    JoinConcat(left + a.before + a.body + [a.sep], a.after);
    Reassociate(Join(left), Join(a.before), Join(a.body), Join([a.sep]), Join(a.after));
  }

  /**
   Reading the lines `todo`, with `lines` collected so far, ends the reply at `body` and leaves `after`: blank lines
   before the first line of the reply are skipped, the blank line after it ends it.
   */
  ghost predicate Leads(todo: seq<Line>, lines: seq<Line>, body: seq<Line>, after: seq<Line>)
    decreases |todo|
  {
    && todo != [] && NL !in todo[0]
    && if !Blank(todo[0]) then Leads(todo[1..], lines + [todo[0]], body, after)
       else if lines == [] then Leads(todo[1..], lines, body, after)
       else lines == body && todo[1..] == after
  }

  lemma {:induction false} BlanksLead(blanks: seq<Line>, todo: seq<Line>, body: seq<Line>, after: seq<Line>)
    requires Complete(blanks) && AllBlank(blanks) && Leads(todo, [], body, after)
    ensures Leads(blanks + todo, [], body, after)
  {
    if blanks == [] {
      assert blanks + todo == todo;
    } else {
      assert blanks[0] in blanks && (blanks + todo)[1..] == blanks[1..] + todo;
      BlanksLead(blanks[1..], todo, body, after);
    }
  }

  lemma {:induction false} ReplyLeads(lines: seq<Line>, rest: seq<Line>, sep: Line, after: seq<Line>)
    requires Complete(rest) && (forall l | l in rest :: !Blank(l)) && lines + rest != []
    requires NL !in sep && Blank(sep)
    ensures Leads(rest + ([sep] + after), lines, lines + rest, after)
    decreases |rest|
  {
    var todo := rest + ([sep] + after);
    if rest == [] {
      assert todo == [sep] + after && lines + rest == lines;
    } else {
      assert rest[0] in rest && todo[1..] == rest[1..] + ([sep] + after);
      assert lines + [rest[0]] + rest[1..] == lines + rest;
      ReplyLeads(lines + [rest[0]], rest[1..], sep, after);
    }
  }

  /** The lines still to come when a command's answer is awaited lead to its reply. */
  lemma ExpectedLeads(left: seq<Line>, a: Answer)
    requires WellFramed(a) && Complete(left) && AllBlank(left)
    ensures Leads(Expected(left, a), [], a.body, a.after)
  {
    BodyLeads(a.body, a.sep, a.after);
    BlanksLead(a.before, a.body + ([a.sep] + a.after), a.body, a.after);
    BlanksLead(left, a.before + (a.body + ([a.sep] + a.after)), a.body, a.after);
    assert left + (a.before + (a.body + ([a.sep] + a.after))) == Expected(left, a);
  }

  lemma BodyLeads(body: seq<Line>, sep: Line, after: seq<Line>)
    requires body != [] && Complete(body) && (forall l | l in body :: !Blank(l)) && NL !in sep && Blank(sep)
    ensures Leads(body + ([sep] + after), [], body, after)
  {
    assert [] + body == body;
    ReplyLeads([], body, sep, after);
  }

  /** The next line of the stream is the next of those to come. */
  lemma NextOfJoined(todo: seq<Line>, line: Line, rest: seq<Byte>)
    requires todo != [] && NL !in todo[0] && NL !in line && Join(todo) == line + [NL] + rest
    ensures line == todo[0] && rest == Join(todo[1..])
  {
    FirstLineIsUnique(line, rest, todo[0], Join(todo[1..]));
  }

  lemma JoinHasBreak(todo: seq<Line>)
    requires todo != []
    ensures NL in Join(todo)
  {
    assert Join(todo)[|todo[0]|] == NL;
  }

  /** What a system call may bring: some bytes, the deadline, the end of the stream, a refused write. */
  datatype Event = Bytes(n: nat) | TimeUp | Closed | Refused

  /** The last of the system calls made since was one that failed. */
  ghost predicate LastBroken(before: seq<Event>, now: seq<Event>) {
    |now| < |before| && (before[|before| - |now| - 1].Closed? || before[|before| - |now| - 1].Refused?)
  }

  ghost predicate MadeFrom(before: seq<Event>, now: seq<Event>) {
    |now| <= |before| && now == before[|before| - |now|..]
  }

  lemma BrokenOnlyNow(before: seq<Event>, midway: seq<Event>, now: seq<Event>)
    requires MadeFrom(before, midway) && !LastBroken(before, midway) && MadeFrom(midway, now)
    ensures MadeFrom(before, now) && (LastBroken(before, now) <==> LastBroken(midway, now))
  {
  }

  lemma NextCall(before: seq<Event>, midway: seq<Event>)
    requires MadeFrom(before, midway) && midway != []
    ensures MadeFrom(before, midway[1..])
    ensures LastBroken(before, midway[1..]) <==> midway[0].Closed? || midway[0].Refused?
  {
  }

  predicate AllBytes(events: seq<Event>) { forall e | e in events :: e.Bytes? }

  datatype Response = Response(env: Option<int>, errors: nat, message: Option<string>)

  /** The command was elaborated without an error. */
  predicate Passes(r: Response) { r.env.Some? && r.message.None? && r.errors == 0 }

  /** The reply says that the command itself was refused. */
  predicate IsErrorObject(r: Response) { r.env.None? && r.message.Some? }

  /** A reply either reports an environment or is an error object. */
  predicate WellShaped(r: Response) { r.env.Some? <==> r.message.None? }

  datatype Failure = Timeout | Dead

  datatype Got<T> = Ok(value: T) | Err(failure: Failure)

  datatype Checked = NotImported | TimedOut | ReplError | Lean(response: Response)

  class ReplServer {
    const decode: seq<Line> -> Option<Response>
    var proc: Option<Process>
    var envId: Option<int>
    var buf: seq<Byte>
    var nChecks: nat
    var nImports: nat
    /** What the system calls still to come will bring. */
    var events: seq<Event>

    constructor (decode: seq<Line> -> Option<Response>, events: seq<Event>)
      ensures Valid() && proc.None? && envId.None? && this.decode == decode && this.events == events
    {
      this.decode, this.events := decode, events;
      proc, envId, buf, nChecks, nImports := None, None, [], 0, 0;
    }

    ghost predicate Live()
      reads this
    {
      proc.Some? && InOrder(proc.value)
    }

    /** The unread bytes: those in the buffer and those still in the pipe. */
    ghost function Pending(): seq<Byte>
      reads this
      requires Live()
    {
      buf + Output(proc.value)[proc.value.read..]
    }

    /** Nothing but blank lines is left over. */
    ghost predicate Quiet()
      reads this
      requires Live()
    {
      exists ls :: Complete(ls) && AllBlank(ls) && Pending() == Join(ls)
    }

    /** The reply to the `n`-th command of the process, read as JSON. */
    ghost function ReplyTo(p: Process, n: nat): Option<Response>
      requires n < |p.received|
    {
      decode(p.behave(p.received[..n + 1]).body)
    }

    /** The process imported the library into `env`, and the reply to the sanity theorem there has no error message. */
    ghost predicate Sane(p: Process, env: int) {
      && |p.received| >= 2 && p.received[0] == ImportLib && p.received[1] == Sanity(env)
      && ReplyTo(p, 0).Some? && ReplyTo(p, 0).value.env == Some(env)
      && ReplyTo(p, 1).Some? && ReplyTo(p, 1).value.errors == 0
    }

    /** What the process replies to the sanity theorem. */
    ghost function SanityReply(behave: seq<Command> -> Answer, env: int): Option<Response> {
      decode(behave([ImportLib, Sanity(env)]).body)
    }

    /** The sanity theorem really was elaborated exactly if the reply reports an environment and is no error object. */
    lemma ReallyPassedIff(p: Process, env: int)
      requires Sane(p, env)
      ensures SanityReply(p.behave, env).Some?
      ensures var r := SanityReply(p.behave, env).value;
        && (Passes(r) <==> r.env.Some? && r.message.None?)
        && (WellShaped(r) ==> (Passes(r) <==> !(r.env.None? && r.message.Some?)))
    {
      assert p.received[..2] == [ImportLib, Sanity(env)];
    }

    ghost function Unread(): nat
      reads this
      requires Live()
    {
      |Output(proc.value)| - proc.value.read
    }

    /** System calls to come beyond those the unread bytes may take, one byte at a time. */
    ghost function Spare(): int
      reads this
      requires Live()
    {
      |events| - Unread()
    }

    /** Nothing but bytes comes, and enough of it. */
    ghost predicate Smooth()
      reads this
      requires Live()
    {
      AllBytes(events) && Spare() >= 0
    }

    /** The process imports the library and its reply to the sanity theorem has no error message. */
    ghost predicate Boots(behave: seq<Command> -> Answer) {
      var r := decode(behave([ImportLib]).body);
      && r.Some? && r.value.env.Some?
      && SanityReply(behave, r.value.env.value).Some? && SanityReply(behave, r.value.env.value).value.errors == 0
    }

    ghost function BootEnv(behave: seq<Command> -> Answer): int
      requires Boots(behave)
    {
      decode(behave([ImportLib]).body).value.env.value
    }

    ghost function BootBytes(behave: seq<Command> -> Answer): nat
      requires Boots(behave)
    {
      |Printed(behave([ImportLib]))| + |Printed(behave([ImportLib, Sanity(BootEnv(behave))]))|
    }

    ghost predicate Valid()
      reads this
    {
      envId.Some? ==> Live() && Quiet() && Sane(proc.value, envId.value)
    }

    method NextEvent() returns (e: Event)
      modifies this`events
      ensures old(events) == [] ==> e.TimeUp? && events == []
      ensures old(events) != [] ==> e == old(events)[0] && events == old(events)[1..]
    {
      if events == [] { return TimeUp; }
      e := events[0];
      events := events[1..];
    }

    method Kill()
      modifies this
      ensures proc.None? && envId.None? && buf == [] && Valid()
      ensures nChecks == old(nChecks) && events == old(events)
    {
      proc, envId, buf := None, None, [];
    }

    method Spawn(behave: seq<Command> -> Answer)
      requires forall h :: WellFramed(behave(h))
      modifies this
      ensures proc == Some(Process(behave, [], 0)) && envId == old(envId)
      ensures Live() && Pending() == [] && Quiet() && Unread() == 0
      ensures nChecks == old(nChecks) && events == old(events)
    {
      proc := Some(Process(behave, [], 0));
      buf := [];
      assert Pending() == Join([]);
    }

    /** Some bytes off the pipe. */
    method Read(n: nat) returns (chunk: seq<Byte>)
      requires Live() && proc.value.read < |Output(proc.value)|
      modifies this`proc
      ensures Live() && proc.value == old(proc.value).(read := proc.value.read)
      ensures chunk != [] && |chunk| <= 65536 && Unread() < old(Unread())
      ensures chunk + Output(proc.value)[proc.value.read..] == Output(old(proc.value))[old(proc.value).read..]
    {
      var out := Output(proc.value);
      var size := if n == 0 then 1 else if n > 65536 then 65536 else n;
      var upto := if proc.value.read + size < |out| then proc.value.read + size else |out|;
      chunk := out[proc.value.read..upto];
      OutputIgnoresRead(proc.value, upto);
      proc := Some(proc.value.(read := upto));
    }

    /** The next line of the stream, however the bytes arrive; a failure loses none of them. */
    method ReadLine() returns (r: Got<Line>)
      requires Live()
      modifies this`proc, this`buf, this`events
      ensures Live() && proc.value == old(proc.value).(read := proc.value.read)
      ensures r.Ok? ==> 10 !in r.value && old(Pending()) == r.value + [10] + Pending()
      ensures r.Ok? ==> SplitLines(old(Pending())) == [r.value] + SplitLines(Pending())
      ensures r.Err? ==> Pending() == old(Pending())
      ensures MadeFrom(old(events), events)
      ensures if r.Err? then r.failure.Dead? <==> LastBroken(old(events), events) else !LastBroken(old(events), events)
      ensures old(Smooth()) && NL in old(Pending()) ==> r.Ok? && Smooth() && Spare() >= old(Spare())
    {
      while NL !in buf
        invariant Live() && proc.value == old(proc.value).(read := proc.value.read)
        invariant Pending() == old(Pending())
        invariant MadeFrom(old(events), events) && !LastBroken(old(events), events)
        invariant old(Smooth()) ==> Smooth() && Spare() >= old(Spare())
        decreases |events|
      {
        ghost var todo := events;
        BreakIsUnread(buf, Output(proc.value)[proc.value.read..]);
        var e := NextEvent();
        assert todo != [] ==> e in todo;
        if todo != [] { NextCall(old(events), todo); }
        match e {
          case Bytes(n) =>
            if proc.value.read == |Output(proc.value)| { return Err(Timeout); }
            ghost var before := Pending();
            var chunk := Read(n);
            buf := buf + chunk;
            assert Pending() == before;
            OutputIgnoresRead(old(proc.value), proc.value.read);
          case TimeUp => return Err(Timeout);
          case _ => return Err(Dead);
        }
      }
      var i := FirstBreak(buf);
      ghost var before := Pending();
      r := Ok(buf[..i]);
      assert buf == buf[..i] + [NL] + buf[i + 1..];
      buf := buf[i + 1..];
      assert before == r.value + [NL] + Pending();
      SplitFirst(r.value, Pending());
    }

    /** Sends a command and collects lines until the blank one after the reply. */
    method Exchange(c: Command) returns (r: Got<Response>)
      requires Live() && Quiet()
      modifies this`proc, this`buf, this`events
      ensures Live() && proc.value.behave == old(proc.value).behave
      ensures r.Ok? ==>
        && proc.value.received == old(proc.value).received + [c] && Quiet()
        && ReplyTo(proc.value, |proc.value.received| - 1) == Some(r.value)
      ensures var a := old(proc.value).behave(old(proc.value).received + [c]);
        AllBytes(old(events)) && old(Spare()) >= |Printed(a)| && decode(a.body).Some? ==>
        r.Ok? && r.value == decode(a.body).value && AllBytes(events) && Spare() >= old(Spare()) - |Printed(a)|
      ensures r.Err? ==>
        if r.failure.Timeout? then !LastBroken(old(events), events)
        else
          || LastBroken(old(events), events)
          || decode(old(proc.value).behave(old(proc.value).received + [c]).body).None?
    {
      if events != [] && events[0].Refused? {
        assert events[0] in events;
        events := events[1..];
        return Err(Dead);
      }
      ghost var left, a := Tell(c);
      ExpectedLeads(left, a);
      var lines := Collect(Expected(left, a), a.body, a.after);
      if lines.Err? { return Err(lines.failure); }
      assert proc.value.received[..|proc.value.received|] == proc.value.received;
      var response := decode(lines.value);
      if response.None? { return Err(Dead); }
      return Ok(response.value);
    }

    /** The lines of the reply: leading blank lines are skipped, the next blank line ends it. */
    method Collect(ghost expected: seq<Line>, ghost body: seq<Line>, ghost after: seq<Line>) returns (r: Got<seq<Line>>)
      requires Live() && Pending() == Join(expected) && Leads(expected, [], body, after)
      modifies this`proc, this`buf, this`events
      ensures Live() && proc.value == old(proc.value).(read := proc.value.read)
      ensures r.Ok? ==> r.value == body && Pending() == Join(after)
      ensures MadeFrom(old(events), events)
      ensures r.Err? ==> (r.failure.Dead? <==> LastBroken(old(events), events))
      ensures old(Smooth()) ==> r.Ok? && Smooth() && Spare() >= old(Spare())
    {
      var lines: seq<Line> := [];
      ghost var todo := expected;
      while true
        invariant Live() && proc.value == old(proc.value).(read := proc.value.read)
        invariant Pending() == Join(todo) && Leads(todo, lines, body, after)
        invariant MadeFrom(old(events), events) && !LastBroken(old(events), events)
        invariant old(Smooth()) ==> Smooth() && Spare() >= old(Spare())
        decreases |todo|
      {
        JoinHasBreak(todo);
        ghost var midway := events;
        var got := ReadLine();
        BrokenOnlyNow(old(events), midway, events);
        if got.Err? { return Err(got.failure); }
        NextOfJoined(todo, got.value, Pending());
        if Blank(got.value) {
          if lines != [] { break; }
        } else {
          lines := lines + [got.value];
        }
        todo := todo[1..];
      }
      return Ok(lines);
    }

    /** The command is written: its answer will follow what is left over. */
    method Tell(c: Command) returns (ghost left: seq<Line>, ghost a: Answer)
      requires Live() && Quiet()
      modifies this`proc
      ensures proc == Some(Told(old(proc.value), c)) && Live()
      ensures a == proc.value.behave(proc.value.received) && WellFramed(a)
      ensures Complete(left) && AllBlank(left) && Pending() == Join(Expected(left, a))
      ensures Spare() == old(Spare()) - |Printed(a)|
    {
      left :| Complete(left) && AllBlank(left) && Pending() == Join(left);
      ghost var p := proc.value;
      UnreadGrows(p, c);
      proc := Some(Told(proc.value, c));
      a := p.behave(p.received + [c]);
      ExpectedJoins(left, a);
      assert Pending() == Join(left) + Printed(a);
    }

    /** A new process imports the library. */
    method Import(behave: seq<Command> -> Answer) returns (ok: bool)
      requires forall h :: WellFramed(behave(h))
      modifies this
      ensures nChecks == old(nChecks)
      ensures ok ==>
        && envId.Some? && Live() && Quiet() && proc.value.behave == behave && proc.value.received == [ImportLib]
        && decode(behave([ImportLib]).body).Some? && decode(behave([ImportLib]).body).value.env == envId
      ensures Boots(behave) && AllBytes(old(events)) && |old(events)| >= |Printed(behave([ImportLib]))| ==>
        ok && envId == Some(BootEnv(behave)) && AllBytes(events)
          && Spare() >= |old(events)| - |Printed(behave([ImportLib]))|
    {
      Kill();
      Spawn(behave);
      assert [] + [ImportLib] == [ImportLib];
      var imported := Exchange(ImportLib);
      if imported.Err? { return false; }
      assert proc.value.received[..1] == [ImportLib];
      envId := imported.value.env;
      if envId.None? { return false; }
      nImports := nImports + 1;
      return true;
    }

    /** The sanity theorem is sent, and its reply may have no error message. */
    method TestSanity() returns (ok: bool)
      requires envId.Some? && Live() && Quiet() && proc.value.received == [ImportLib]
      requires decode(proc.value.behave([ImportLib]).body).Some?
        && decode(proc.value.behave([ImportLib]).body).value.env == envId
      modifies this`proc, this`buf, this`events
      ensures ok ==>
        && Valid() && proc.value.behave == old(proc.value).behave
        && proc.value.received == [ImportLib, Sanity(envId.value)]
      ensures var reply := SanityReply(old(proc.value).behave, envId.value);
        var cost := |Printed(old(proc.value).behave([ImportLib, Sanity(envId.value)]))|;
        reply.Some? && reply.value.errors == 0 && AllBytes(old(events)) && old(Spare()) >= cost ==>
        ok && AllBytes(events) && Spare() >= old(Spare()) - cost
    {
      ghost var imp := proc.value;
      assert [ImportLib] + [Sanity(envId.value)] == [ImportLib, Sanity(envId.value)];
      assert imp.received[..1] == [ImportLib];
      var sanity := Exchange(Sanity(envId.value));
      if sanity.Err? || sanity.value.errors > 0 { return false; }
      SaneFrom(imp, proc.value, envId.value);
      return true;
    }

    method Boot(behave: seq<Command> -> Answer) returns (ok: bool)
      requires forall h :: WellFramed(behave(h))
      modifies this
      ensures ok ==>
        Valid() && envId.Some? && proc.value.behave == behave && proc.value.received == [ImportLib, Sanity(envId.value)]
      ensures nChecks == old(nChecks)
      ensures Boots(behave) && AllBytes(old(events)) && |old(events)| >= BootBytes(behave) ==>
        ok && envId == Some(BootEnv(behave)) && AllBytes(events) && Spare() >= |old(events)| - BootBytes(behave)
    {
      ok := Import(behave);
      if ok {
        ok := TestSanity();
      }
    }

    /** A live process is kept; otherwise there is a new one. */
    method EnsureImported(behave: seq<Command> -> Answer, alive: bool) returns (ok: bool)
      requires Valid() && forall h :: WellFramed(behave(h))
      modifies this
      ensures ok ==> Valid() && envId.Some?
      ensures nChecks == old(nChecks)
      ensures old(envId).Some? && alive ==>
        ok && proc == old(proc) && envId == old(envId) && events == old(events) && buf == old(buf)
      ensures !(old(envId).Some? && alive) && ok ==>
        proc.value.behave == behave && proc.value.received == [ImportLib, Sanity(envId.value)]
      ensures !(old(envId).Some? && alive) && Boots(behave) ==>
        AllBytes(old(events)) && |old(events)| >= BootBytes(behave) ==>
        ok && envId == Some(BootEnv(behave)) && AllBytes(events) && Spare() >= |old(events)| - BootBytes(behave)
    {
      if envId.Some? && alive { return true; }
      ok := Boot(behave);
    }

    /**
     A reply is served only if it answers this very command, in the environment that the same process imported and
     whose sanity reply had no error message. After anything else the process is gone.
     */
    method Check(code: string, behave: seq<Command> -> Answer, alive: bool) returns (r: Checked)
      requires Valid() && forall h :: WellFramed(behave(h))
      modifies this
      ensures Valid()
      ensures r.Lean? ==>
        && envId.Some? && proc.Some? && Sane(proc.value, envId.value)
        && |proc.value.received| > 2 && proc.value.received[|proc.value.received| - 1] == Code(code, envId.value)
        && ReplyTo(proc.value, |proc.value.received| - 1) == Some(r.response)
      ensures r.Lean? ==>
        if old(envId).Some? && alive then proc.value.received == old(proc.value.received) + [Code(code, envId.value)]
        else |proc.value.received| == 3 && proc.value.behave == behave
      ensures !r.Lean? ==> proc.None? && envId.None? && buf == []
      ensures nChecks == old(nChecks) + if r.Lean? then 1 else 0
      ensures old(envId).Some? && alive ==>
        && !r.NotImported? && (r.TimedOut? ==> !LastBroken(old(events), events))
        && (r.ReplError? ==>
              || LastBroken(old(events), events)
              || decode(old(proc.value).behave(old(proc.value).received + [Code(code, old(envId).value)]).body).None?)
      ensures old(envId).Some? && alive ==>
        var a := old(proc.value).behave(old(proc.value).received + [Code(code, old(envId).value)]);
        old(AllBytes(events)) && old(Spare()) >= |Printed(a)| && decode(a.body).Some? ==> r.Lean?
      ensures !(old(envId).Some? && alive) && Boots(behave) ==>
        var a := behave([ImportLib, Sanity(BootEnv(behave)), Code(code, BootEnv(behave))]);
        AllBytes(old(events)) && |old(events)| >= BootBytes(behave) + |Printed(a)| && decode(a.body).Some? ==> r.Lean?
    {
      var ok := EnsureImported(behave, alive);
      if !ok {
        Kill();
        return NotImported;
      }
      ghost var c := Code(code, envId.value);
      assert [ImportLib, Sanity(envId.value)] + [c] == [ImportLib, Sanity(envId.value), c];
      r := Serve(code);
    }

    /** The check proper, on a process that has passed the sanity test. */
    method Serve(code: string) returns (r: Checked)
      requires Valid() && envId.Some?
      modifies this
      ensures Valid()
      ensures r.Lean? ==>
        && envId == old(envId) && proc.value.behave == old(proc.value).behave
        && proc.value.received == old(proc.value).received + [Code(code, old(envId).value)]
        && ReplyTo(proc.value, |proc.value.received| - 1) == Some(r.response)
      ensures !r.Lean? ==> proc.None? && envId.None? && buf == []
      ensures nChecks == old(nChecks) + if r.Lean? then 1 else 0
      ensures r.Lean? || r.TimedOut? || r.ReplError?
      ensures r.TimedOut? ==> !LastBroken(old(events), events)
      ensures r.ReplError? ==>
        || LastBroken(old(events), events)
        || decode(old(proc.value).behave(old(proc.value).received + [Code(code, old(envId).value)]).body).None?
      ensures var a := old(proc.value).behave(old(proc.value).received + [Code(code, old(envId).value)]);
        AllBytes(old(events)) && old(Spare()) >= |Printed(a)| && decode(a.body).Some? ==> r.Lean?
    {
      ghost var p, env := proc.value, envId.value;
      var got := Exchange(Code(code, envId.value));
      if got.Err? {
        Kill();
        return if got.failure.Timeout? then TimedOut else ReplError;
      }
      SaneLasts(p, proc.value, env);
      nChecks := nChecks + 1;
      return Lean(got.value);
    }

    lemma SaneFrom(p: Process, q: Process, env: int)
      requires p.received == [ImportLib] && q.received == [ImportLib] + [Sanity(env)] && p.behave == q.behave
      requires ReplyTo(p, 0).Some? && ReplyTo(p, 0).value.env == Some(env)
      requires ReplyTo(q, 1).Some? && ReplyTo(q, 1).value.errors == 0
      ensures Sane(q, env)
    {
      assert p.received[..1] == q.received[..1];
    }

    lemma SaneLasts(p: Process, q: Process, env: int)
      requires Sane(p, env) && q.behave == p.behave && |q.received| >= |p.received|
        && q.received[..|p.received|] == p.received
      ensures Sane(q, env)
    {
      assert q.received[0] == q.received[..|p.received|][0] && q.received[1] == q.received[..|p.received|][1];
      assert q.received[..1] == p.received[..1] && q.received[..2] == p.received[..2];
    }
  }

  // ---- an error object passes the sanity test ------------------------------------------------------------------

  /** Prints one byte in reply to each command: the second command's is another one. */
  function OddSecond(h: seq<Command>): Answer { Answer([], [[if |h| == 2 then 2 else 1]], [], []) }

  /** The first byte stands for a good reply in environment 0, the other for an error object. */
  function ReadByte(lines: seq<Line>): Option<Response> {
    if lines == [[1]] then Some(Response(Some(0), 0, None))
    else if lines == [[2]] then Some(Response(None, 0, Some("Unknown environment.")))
    else None
  }

  lemma JoinOne(l: Line)
    ensures Join([l]) == l + [NL]
  {
    assert [l][1..] == [];
  }

  lemma OddSecondIsFramed()
    ensures forall h :: WellFramed(OddSecond(h)) && |Printed(OddSecond(h))| == 3
  {
    forall h ensures WellFramed(OddSecond(h)) && |Printed(OddSecond(h))| == 3 {
      var l: Line := [if |h| == 2 then 2 else 1];
      assert l[0] in l && !IsSpace(l[0]);
      JoinOne(l);
      JoinOne([]);
    }
  }

  /** A verdict is served although the sanity theorem was answered with an error object. */
  method ErrorObjectIsServed(code: string)
    returns (r: Checked, behave: seq<Command> -> Answer, decode: seq<Line> -> Option<Response>)
    ensures r.Lean? && forall h :: WellFramed(behave(h))
    ensures decode(behave([ImportLib]).body) == Some(Response(Some(0), 0, None))
    ensures var sanity := decode(behave([ImportLib, Sanity(0)]).body);
      sanity.Some? && IsErrorObject(sanity.value) && !Passes(sanity.value)
  {
    behave, decode := OddSecond, ReadByte;
    OddSecondIsFramed();
    var server := new ReplServer(decode, seq(9, i => Bytes(1)));
    assert server.Boots(behave) && server.BootEnv(behave) == 0;
    assert decode(behave([ImportLib, Sanity(0), Code(code, 0)]).body).Some?;
    r := server.Check(code, behave, false);
  }
}
