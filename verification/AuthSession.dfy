/** The login session: which commands `handle_client` ever hands to a handler, over a whole connection. */
module AuthSession {
  import opened Basics

  datatype Command =
    | LogonChallenge | LogonProof | ReconnectChallenge | ReconnectProof | RealmList
    | XferInitiate | XferData | XferAccept | XferResume | XferCancel

  datatype Status = Challenge | AwaitLogonProof | AwaitReconnectProof | Patch | Authed | Closed

  /** What the network, the database and the cryptographic checks answer while one command is handled. */
  datatype Facts = Facts(headerRead: bool, bodyRead: bool, accountOk: bool, written: bool, buildKnown: bool,
                         keyOk: bool, proofOk: bool, tokenOk: bool, versionOk: bool)

  datatype Event = Event(byte: nat, facts: Facts)

  datatype Handled = Handled(cmd: Command, facts: Facts)

  /** The number a command has on the wire. */
  ghost function Code(cmd: Command): (b: nat)
    ensures b < 0x100
  {
    match cmd
    case LogonChallenge => 0
    case LogonProof => 1
    case ReconnectChallenge => 2
    case ReconnectProof => 3
    case RealmList => 16
    case XferInitiate => 48
    case XferData => 49
    case XferAccept => 50
    case XferResume => 51
    case XferCancel => 52
  }

  function FromByte(b: nat): (r: Option<Command>)
    ensures forall cmd :: r == Some(cmd) <==> b == Code(cmd)
  {
    match b
    case 0x00 => Some(LogonChallenge)
    case 0x01 => Some(LogonProof)
    case 0x02 => Some(ReconnectChallenge)
    case 0x03 => Some(ReconnectProof)
    case 0x10 => Some(RealmList)
    case 0x30 => Some(XferInitiate)
    case 0x31 => Some(XferData)
    case 0x32 => Some(XferAccept)
    case 0x33 => Some(XferResume)
    case 0x34 => Some(XferCancel)
    case _ => None
  }

  function Expected(cmd: Command): Status {
    match cmd
    case LogonChallenge => Challenge
    case LogonProof => AwaitLogonProof
    case ReconnectChallenge => Challenge
    case ReconnectProof => AwaitReconnectProof
    case RealmList => Authed
    case XferAccept => Patch
    case XferResume => Patch
    case XferCancel => Patch
    case XferInitiate => Closed
    case XferData => Closed
  }

  /** The session's variables that decide what may happen next. */
  class Session {
    var status: Status
    /** Every command given to a handler so far. */
    ghost var trace: seq<Handled>

    constructor ()
      ensures status == Challenge && trace == []
    {
      status, trace := Challenge, [];
    }

    ghost predicate Valid()
      reads this
    {
      Admissible(trace) && status == StatusAfter(trace)
    }

    /** Writes the status as the handler does; an error ends the connection. */
    method HandleLogonChallenge(f: Facts) returns (ok: bool)
      modifies this`status
      ensures (ok && status != Closed <==> ChallengeTaken(f)) && (ChallengeTaken(f) ==> status == AwaitLogonProof)
    {
      if !f.headerRead { return false; }
      status := Closed;
      if !f.bodyRead { return false; }
      if f.accountOk { status := AwaitLogonProof; }
      return f.written;
    }

    method HandleLogonProof(f: Facts) returns (ok: bool)
      requires status == AwaitLogonProof
      modifies this`status
      ensures (ok && status != Closed <==> LogonProved(f)) && (LogonProved(f) ==> status == Authed)
    {
      if !f.bodyRead { return false; }
      status := Closed;
      if !f.buildKnown { return f.written; }
      if !f.keyOk { return true; }
      if !f.proofOk { return f.written; }
      if !f.tokenOk { return f.written; }
      if !f.versionOk { return f.written; }
      if !f.written { return false; }
      status := Authed;
      return true;
    }

    method HandleReconnectChallenge(f: Facts) returns (ok: bool)
      modifies this`status
      ensures (ok && status != Closed <==> ChallengeTaken(f)) && (ChallengeTaken(f) ==> status == AwaitReconnectProof)
    {
      if !f.headerRead { return false; }
      status := Closed;
      if !f.bodyRead { return false; }
      if !f.accountOk { return false; }
      status := AwaitReconnectProof;
      return f.written;
    }

    method HandleReconnectProof(f: Facts) returns (ok: bool)
      requires status == AwaitReconnectProof
      modifies this`status
      ensures (ok && status != Closed <==> ReconnectProved(f)) && (ReconnectProved(f) ==> status == Authed)
    {
      if !f.bodyRead { return false; }
      status := Closed;
      if !f.keyOk { return true; }
      if f.proofOk {
        if !f.versionOk { return f.written; }
        if !f.written { return false; }
        status := Authed;
      }
      return true;
    }

    /** One round of the loop; false when the connection ends. */
    method Step(e: Event) returns (alive: bool)
      requires Valid() && Lives(trace) && status != Closed
      modifies this
      ensures Admissible(trace)
      ensures if Accepts(old(trace), e) then trace == old(trace) + [Handled(Next(old(trace), e), e.facts)]
                else trace == old(trace)
      ensures alive <==> Accepts(old(trace), e) && Lives(trace)
      ensures alive ==> Valid() && status != Closed
    {
      StatusShape(trace);
      var parsed := FromByte(e.byte);
      if parsed.None? { return false; }
      var cmd := parsed.value;
      if Expected(cmd) != status { return false; }
      trace := trace + [Handled(cmd, e.facts)];
      var ok := true;
      match cmd {
      case LogonChallenge => ok := HandleLogonChallenge(e.facts);
      case LogonProof => ok := HandleLogonProof(e.facts);
      case ReconnectChallenge => ok := HandleReconnectChallenge(e.facts);
      case ReconnectProof => ok := HandleReconnectProof(e.facts);
      case RealmList => ok := e.facts.bodyRead && e.facts.accountOk && e.facts.written;
      case XferInitiate => assert false;
      case XferData => assert false;
      case XferAccept => assert false;
      case XferResume => assert false;
      case XferCancel => assert false;
      }
      return ok && status != Closed;
    }

    /**
     A connection fed any bytes, with any answers to every check.  What is handled is the longest run of events
     that the session accepts one after the other, so it is determined by the events alone: a first byte 0 or 2,
     then a byte 1 or 3 to match, then bytes 16.
     */
    method HandleClient(events: seq<Event>)
      requires status == Challenge && trace == []
      modifies this
      ensures Admissible(trace) && IsRun(events, trace) && Stopped(events, trace)
      ensures |trace| > 0 ==> events[0].byte == if trace[0].cmd == LogonChallenge then 0 else 2
      ensures |trace| > 1 ==> events[1].byte == events[0].byte + 1
      ensures forall i | 2 <= i < |trace| :: events[i].byte == 16
    {
      var alive, i := true, 0;
      while alive && i < |events|
        invariant 0 <= i <= |events| && Admissible(trace) && IsRun(events, trace)
        invariant alive ==> Valid() && status != Closed && |trace| == i && Lives(trace)
        invariant !alive ==> Stopped(events, trace)
        decreases |events| - i
      {
        ghost var before := trace;
        alive := Step(events[i]);
        if Accepts(before, events[i]) { RunExtends(events, before); }
        i := i + 1;
      }
      RunBytes(events, trace);
    }
  }

  /** The session waits for this byte. */
  ghost predicate Accepts(t: seq<Handled>, e: Event) {
    match StatusAfter(t)
    case Challenge => e.byte == 0 || e.byte == 2
    case AwaitLogonProof => e.byte == 1
    case AwaitReconnectProof => e.byte == 3
    case Authed => e.byte == 16
    case Patch => false
    case Closed => false
  }

  /** The command of a byte the session waits for. */
  ghost function Next(t: seq<Handled>, e: Event): (cmd: Command)
    requires Accepts(t, e)
    ensures e.byte == Code(cmd)
  {
    match StatusAfter(t)
    case Challenge => if e.byte == 0 then LogonChallenge else ReconnectChallenge
    case AwaitLogonProof => LogonProof
    case AwaitReconnectProof => ReconnectProof
    case Authed => RealmList
  }

  /** The last handler left the connection open. */
  ghost predicate Lives(t: seq<Handled>) {
    && StatusAfter(t) != Closed
    && (|t| > 2 ==> var f := t[|t| - 1].facts; f.bodyRead && f.accountOk && f.written)
  }

  /** The trace is the events in order, each accepted by a session that was still alive. */
  ghost predicate IsRun(events: seq<Event>, t: seq<Handled>) {
    |t| <= |events| && forall i | 0 <= i < |t| :: Follows(events, t, i)
  }

  ghost predicate Follows(events: seq<Event>, t: seq<Handled>, i: nat)
    requires i < |t| && i < |events|
  {
    && events[i].byte == Code(t[i].cmd) && t[i].facts == events[i].facts
    && Lives(t[..i]) && Accepts(t[..i], events[i])
  }

  /** Nothing more is handled: no event is left, the session is over, or the next command is not the expected one. */
  ghost predicate Stopped(events: seq<Event>, t: seq<Handled>) {
    |t| >= |events| || !Lives(t) || !Accepts(t, events[|t|])
  }

  lemma RunExtends(events: seq<Event>, t: seq<Handled>)
    requires IsRun(events, t) && |t| < |events| && Lives(t) && Accepts(t, events[|t|])
    ensures IsRun(events, t + [Handled(Next(t, events[|t|]), events[|t|].facts)])
  {
    var t' := t + [Handled(Next(t, events[|t|]), events[|t|].facts)];
    forall i | 0 <= i < |t'| ensures Follows(events, t', i) {
      assert t'[..i] == t[..i];
      if i < |t| { assert Follows(events, t, i); } else { assert t[..i] == t; }
    }
  }

  lemma RunBytes(events: seq<Event>, t: seq<Handled>)
    requires IsRun(events, t) && Admissible(t)
    ensures |t| > 0 ==> events[0].byte == if t[0].cmd == LogonChallenge then 0 else 2
    ensures |t| > 1 ==> events[1].byte == events[0].byte + 1
    ensures forall i | 2 <= i < |t| :: events[i].byte == 16
  {
    if |t| > 0 { assert Follows(events, t, 0); }
    if |t| > 1 { assert Follows(events, t, 1); }
    forall i | 2 <= i < |t| ensures events[i].byte == 16 { assert Follows(events, t, i); }
  }

  /** Of two runs over the same events the shorter is a prefix of the longer, which went on from there. */
  lemma RunsAgree(events: seq<Event>, t: seq<Handled>, t': seq<Handled>)
    requires IsRun(events, t) && IsRun(events, t') && |t| <= |t'|
    ensures t == t'[..|t|]
    ensures |t| < |t'| ==> Lives(t) && Accepts(t, events[|t|])
  {
    forall i | 0 <= i < |t| ensures t[i] == t'[i] {
      assert Follows(events, t, i) && Follows(events, t', i);
    }
    if |t| < |t'| { assert Follows(events, t', |t|); }
  }

  /** The events determine the trace. */
  lemma RunDetermined(events: seq<Event>, t: seq<Handled>, t': seq<Handled>)
    requires IsRun(events, t) && IsRun(events, t') && Stopped(events, t) && Stopped(events, t')
    ensures t == t'
  {
    if |t| <= |t'| { RunsAgree(events, t, t'); } else { RunsAgree(events, t', t); }
    assert t'[..|t'|] == t';
  }

  ghost predicate ChallengeTaken(f: Facts) { f.headerRead && f.bodyRead && f.accountOk && f.written }

  ghost predicate LogonProved(f: Facts) {
    f.bodyRead && f.buildKnown && f.keyOk && f.proofOk && f.tokenOk && f.versionOk && f.written
  }

  ghost predicate ReconnectProved(f: Facts) { f.bodyRead && f.keyOk && f.proofOk && f.versionOk && f.written }

  /**
   A challenge, the proof that answers it, then realm list requests only.  The proof is reached only past a good
   challenge, the realm list only past a proof that passed every check.
   */
  ghost predicate Admissible(t: seq<Handled>) {
    && (|t| > 0 ==> t[0].cmd == LogonChallenge || t[0].cmd == ReconnectChallenge)
    && (|t| > 1 ==> ChallengeTaken(t[0].facts) && t[1].cmd == if t[0].cmd == LogonChallenge then LogonProof
        else ReconnectProof)
    && (|t| > 2 ==> if t[0].cmd == LogonChallenge then LogonProved(t[1].facts) else ReconnectProved(t[1].facts))
    && (forall i | 2 <= i < |t| :: t[i].cmd == RealmList)
  }

  /** Where a live session stands. */
  ghost function StatusAfter(t: seq<Handled>): Status {
    if |t| == 0 then Challenge
    else if |t| == 1 then
      if !ChallengeTaken(t[0].facts) then Closed
      else if t[0].cmd == LogonChallenge then AwaitLogonProof else AwaitReconnectProof
    else if (if t[0].cmd == LogonChallenge then LogonProved(t[1].facts) else ReconnectProved(t[1].facts)) then Authed
        else Closed
  }

  lemma StatusShape(t: seq<Handled>)
    ensures StatusAfter(t) != Patch
    ensures StatusAfter(t) == Authed ==> |t| >= 2
  {
  }
}
