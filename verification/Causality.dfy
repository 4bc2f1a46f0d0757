/** What a connection has said and reported depends on what it has read so far, never on what it reads later. */
module Causality {
  import opened Base
  import opened Assembly
  import opened Bitfield
  import opened Connection
  import opened Events
  import opened Session
  import opened Wire

  /** Nothing said is unsaid. */
  predicate Grows(l: Link, r: Link) { l.sent <= r.sent && l.events <= r.events }

  lemma {:induction false} GrowsThen(l: Link, m: Link, r: Link)
    requires Grows(l, m) && Grows(m, r)
    ensures Grows(l, r)
  {
  }

  lemma {:induction false} SayingGrows(l: Link, r: Link, m: Message, e: Event)
    requires r.sent == l.sent && r.events == l.events
    ensures Grows(l, r) && Grows(l, Write(r, m).0) && Grows(l, Emit(r, e).0)
  {
  }

  lemma {:induction false} HandlingGrows(l: Link, seed: SeedSnapshot, m: Message)
    ensures Grows(l, HandleMessage(l, seed, m).0)
  {
    hide ServeRequest, Sized, SetPiece, Marked, ParseHave, BlockMessage;
  }

  lemma {:induction false} FillGrows(w: Work, a: Partial)
    requires Assembly.Shape(w, a)
    ensures Grows(a.link, Fill(w, a).0.link)
    decreases BACKLOG_LIMIT - a.outstanding
  {
    hide AskFor, Blocks, Grows, Write;
    var next := NextUnrequested(a.requested);
    SayingGrows(a.link, a.link, ChokeMessage(true), PeerReady(a.link.addr));
    if !a.link.peerChoking && a.outstanding < BACKLOG_LIMIT && next != -1 {
      SayingGrows(a.link, a.link, AskFor(w, next), PeerReady(a.link.addr));
      if Write(a.link, AskFor(w, next)).1 {
        FillGrows(w, Asking(w, a, next));
        GrowsThen(a.link, Asking(w, a, next).link, Fill(w, a).0.link);
      }
    }
  }

  lemma {:induction false} InputGrows(w: Work, a: Partial, input: Input)
    requires Assembly.Shape(w, a)
    ensures Grows(a.link, AfterInput(w, a, input).0.link)
  {
    hide HandleMessage, ParsePiece, Blocks;
    if input.FromPeer? { HandlingGrows(a.link, input.seed, input.message); }
  }

  lemma {:induction false} RunGrows(w: Work, a: Partial, inputs: seq<Input>)
    requires Assembly.Shape(w, a)
    ensures Grows(a.link, Run(w, a, inputs).partial.link)
    ensures a.remaining > 0 ==> Grows(Fill(w, a).0.link, Run(w, a, inputs).partial.link)
    decreases |inputs|
  {
    hide Fill, AfterInput, Grows;
    SayingGrows(a.link, a.link, ChokeMessage(true), PeerReady(a.link.addr));
    if a.remaining > 0 {
      var (filled, sent) := Fill(w, a);
      FillGrows(w, a);
      SayingGrows(filled.link, filled.link, ChokeMessage(true), PeerReady(a.link.addr));
      if sent && inputs != [] {
        var (next, failure) := AfterInput(w, filled, inputs[0]);
        InputGrows(w, filled, inputs[0]);
        if failure == None {
          RunGrows(w, next, inputs[1..]);
          GrowsThen(filled.link, next.link, Run(w, a, inputs).partial.link);
        }
      }
      GrowsThen(a.link, filled.link, Run(w, a, inputs).partial.link);
    }
  }

  /** More input continues a piece where it was waiting, and changes nothing about one that had ended. */
  ghost predicate Continues(before: Outcome, after: Outcome, more: seq<Input>) {
    match before
    case Waiting(p) => Grows(p.link, after.partial.link)
    case Done(p, rest) => after == Done(p, rest + more)
    case Failed(p, failure, rest) => after == Failed(p, failure, rest + more)
  }

  lemma {:induction false} RunContinues(w: Work, a: Partial, inputs: seq<Input>, more: seq<Input>)
    requires Assembly.Shape(w, a)
    ensures Continues(Run(w, a, inputs), Run(w, a, inputs + more), more)
    decreases |inputs|
  {
    hide Fill, AfterInput, Grows;
    if inputs == [] {
      assert inputs + more == more;
      RunGrows(w, a, more);
    } else {
      assert (inputs + more)[0] == inputs[0] && (inputs + more)[1..] == inputs[1..] + more;
      if a.remaining > 0 && Fill(w, a).1 {
        var (next, failure) := AfterInput(w, Fill(w, a).0, inputs[0]);
        if failure == None { RunContinues(w, next, inputs[1..], more); }
      }
    }
  }

  lemma {:induction false} FetchGrows(sha: Bytes -> Digest, w: Work, l: Link, inputs: seq<Input>)
    requires w.length > 0
    ensures Grows(l, FetchPiece(sha, w, l, inputs).link)
    ensures var fetch := FetchPiece(sha, w, l, inputs);
      !fetch.Pending? ==> Grows(fetch.link, AfterFetch(l.addr, w.index, fetch).0)
  {
    hide Run;
    RunGrows(w, Begin(w, l), inputs);
  }

  lemma {:induction false} FetchContinues(
    sha: Bytes -> Digest, w: Work, l: Link, inputs: seq<Input>, more: seq<Input>)
    requires w.length > 0
    ensures match FetchPiece(sha, w, l, inputs)
      case Pending(l1) => Grows(l1, FetchPiece(sha, w, l, inputs + more).link)
      case Fetched(l1, data, rest) => FetchPiece(sha, w, l, inputs + more) == Fetched(l1, data, rest + more)
      case GaveUp(l1, failure, rest) => FetchPiece(sha, w, l, inputs + more) == GaveUp(l1, failure, rest + more)
  {
    hide Run, Grows;
    RunContinues(w, Begin(w, l), inputs, more);
  }

  lemma {:induction false} DriveGrows(sha: Bytes -> Digest, l: Link, inputs: seq<Input>)
    ensures Grows(l, Drive(sha, l, inputs).link)
    decreases |inputs|, 0
  {
    hide FetchPiece, AfterFetch, HandleMessage, Grows;
    SayingGrows(l, l, ChokeMessage(true), PeerReady(l.addr));
    if inputs != [] {
      var later, r := inputs[1..], Drive(sha, l, inputs).link;
      match inputs[0]
      case FromPeer(m, seed) =>
        var (l1, ok) := HandleMessage(l, seed, m);
        HandlingGrows(l, seed, m);
        if ok { DriveGrows(sha, l1, later); GrowsThen(l, l1, r); }
      case FromCoordinator(AssignPiece(index, length, hash)) =>
        if length > 0 { AssignmentGrows(sha, Work(index, hash, length), l, later); }
      case FromCoordinator(Shutdown) =>
      case FromCoordinator(command) =>
        var (l1, ok) := ApplyCommand(l, command);
        ApplyingGrows(l, command);
        if ok { DriveGrows(sha, l1, later); GrowsThen(l, l1, r); }
      case TimedOut => DriveGrows(sha, l, later);
      case _ =>
    }
  }

  lemma {:induction false} ApplyingGrows(l: Link, command: Command)
    ensures Grows(l, ApplyCommand(l, command).0)
  {
  }

  /** Growth through a piece, as far as it got, and through what follows it. */
  lemma {:induction false} AssignmentGrows(sha: Bytes -> Digest, w: Work, l: Link, later: seq<Input>)
    requires w.length > 0
    ensures var fetch := FetchPiece(sha, w, l, later);
      && Grows(l, fetch.link)
      && (!fetch.Pending? ==>
            var (l1, ok) := AfterFetch(l.addr, w.index, fetch);
            && Grows(fetch.link, l1) && Grows(l, l1)
            && (ok ==> Grows(l, Drive(sha, l1, fetch.rest).link) && Grows(fetch.link, Drive(sha, l1, fetch.rest).link)))
    decreases |later|, 1
  {
    hide FetchPiece, AfterFetch, Drive, Grows;
    var fetch := FetchPiece(sha, w, l, later);
    FetchGrows(sha, w, l, later);
    if !fetch.Pending? {
      var (l1, ok) := AfterFetch(l.addr, w.index, fetch);
      GrowsThen(l, fetch.link, l1);
      if ok {
        DriveGrows(sha, l1, fetch.rest);
        GrowsThen(fetch.link, l1, Drive(sha, l1, fetch.rest).link);
        GrowsThen(l, fetch.link, Drive(sha, l1, fetch.rest).link);
      }
    }
  }

  /** More input continues a connection that was listening, and changes nothing about one that was over. */
  ghost predicate LivesOn(before: Life, after: Life) {
    match before
    case Listening(l) => Grows(l, after.link)
    case Over(l) => after == before
  }

  lemma {:induction false} DriveContinues(sha: Bytes -> Digest, l: Link, inputs: seq<Input>, more: seq<Input>)
    ensures LivesOn(Drive(sha, l, inputs), Drive(sha, l, inputs + more))
    decreases |inputs|
  {
    hide FetchPiece, AfterFetch, HandleMessage, Grows;
    if inputs == [] {
      assert inputs + more == more;
      DriveGrows(sha, l, more);
    } else {
      var later := inputs[1..];
      assert (inputs + more)[0] == inputs[0] && (inputs + more)[1..] == later + more;
      match inputs[0]
      case FromPeer(m, seed) =>
        var (l1, ok) := HandleMessage(l, seed, m);
        if ok { DriveContinues(sha, l1, later, more); }
      case FromCoordinator(AssignPiece(index, length, hash)) =>
        if length > 0 {
          var w := Work(index, hash, length);
          var fetch := FetchPiece(sha, w, l, later);
          FetchContinues(sha, w, l, later, more);
          if fetch.Pending? {
            AssignmentContinues(sha, w, l, later, more);
          } else {
            SameAftermath(l.addr, index, fetch, FetchPiece(sha, w, l, later + more));
            var (l1, ok) := AfterFetch(l.addr, index, fetch);
            if ok { DriveContinues(sha, l1, fetch.rest, more); }
          }
        }
      case FromCoordinator(Shutdown) =>
      case FromCoordinator(command) =>
        var (l1, ok) := ApplyCommand(l, command);
        if ok { DriveContinues(sha, l1, later, more); }
      case TimedOut => DriveContinues(sha, l, later, more);
      case _ =>
    }
  }

  lemma {:induction false} SameAftermath(addr: Events.Addr, index: nat, fetch: Fetch, later: Fetch)
    requires !fetch.Pending? && !later.Pending? && later == fetch.(rest := later.rest)
    ensures AfterFetch(addr, index, fetch) == AfterFetch(addr, index, later)
  {
    hide Write, Emit;
  }

  lemma {:induction false} AssignmentContinues(
    sha: Bytes -> Digest, w: Work, l: Link, later: seq<Input>, more: seq<Input>)
    requires w.length > 0 && FetchPiece(sha, w, l, later).Pending?
    ensures var l1, fetch := FetchPiece(sha, w, l, later).link, FetchPiece(sha, w, l, later + more);
      && Grows(l1, fetch.link)
      && (!fetch.Pending? ==>
            var (l2, ok) := AfterFetch(l.addr, w.index, fetch);
            Grows(l1, l2) && (ok ==> Grows(l1, Drive(sha, l2, fetch.rest).link)))
  {
    hide FetchPiece, AfterFetch, Drive, Grows;
    var l1, fetch := FetchPiece(sha, w, l, later).link, FetchPiece(sha, w, l, later + more);
    FetchContinues(sha, w, l, later, more);
    AssignmentGrows(sha, w, l, later + more);
    if !fetch.Pending? {
      var (l2, ok) := AfterFetch(l.addr, w.index, fetch);
      GrowsThen(l1, fetch.link, l2);
      if ok { GrowsThen(l1, fetch.link, Drive(sha, l2, fetch.rest).link); }
    }
  }

  /** What a connection has sent and reported stands, whatever it reads later; once it is over, nothing is added. */
  lemma {:induction false} ReportsStand(
    sha: Bytes -> Digest, l: Link, bits: Option<Bytes>, inputs: seq<Input>, more: seq<Input>)
    ensures var before, after := RunConnection(sha, l, bits, inputs), RunConnection(sha, l, bits, inputs + more);
      && before.link.sent <= after.link.sent && before.link.events <= after.link.events
      && (before.Over? ==> after == before)
  {
    hide Drive, Greet;
    var (l1, joined) := Emit(l, PeerJoined(l.addr));
    if joined {
      var (l2, ok) := Greet(l1.(bitfield := seq(if l.pieceCount > 0 then (l.pieceCount + 7) / 8 else 0, _ => 0)), bits);
      if ok { DriveContinues(sha, l2, inputs, more); }
    }
  }
}
