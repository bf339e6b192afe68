/**
 The S2S handshake machine (src/sync/handshake.rs): one side alone, and an initiator against a responder
 (src/sync/network.rs).

 The clock is a parameter - seconds since 1970, or none if it stands before that - and an error's text is reduced to what
 it names.
 */
module Handshake {
  import opened Common

  datatype Command =
    | Pass
    | PassTs6(password: string, sid: Sid)
    | Capab(caps: seq<string>)
    | Svinfo(current: nat, minimum: nat, zero: nat, time: nat)
    | Server(name: string, hopcount: nat, sid: Sid, info: string)
    | Cap
    | Other(text: string)

  datatype Error =
    | InvalidStateTransition
    | AuthenticationFailed
    | PassWithoutTs6
    | SidMismatch(pass: Sid, server: Sid)
    | Unexpected(text: string)
    | MissingName
    | UnknownServer(name: string)
    | ClockBeforeEpoch

  datatype Phase = Unconnected | OutboundInitiated | InboundReceived | Bursting | Synced

  datatype LinkBlock = LinkBlock(name: string, password: string)

  datatype Identity = Identity(sid: Sid, name: string, desc: string)

  datatype Machine = Machine(
    phase: Phase,
    remoteName: Option<string>,
    remotePass: Option<string>,
    remoteSid: Option<Sid>,
    sidFromPass: Option<Sid>,
    remoteInfo: Option<string>,
    remoteCapab: Option<seq<string>>,
    remoteSvinfo: Option<(nat, nat, nat, nat)>,
    local: Identity)

  const SUPPORTED_CAPABS: seq<string> :=
    ["QS", "ENCAP", "EX", "IE", "UNKLN", "KLN", "GLN", "HOPS", "CHW", "EOB", "KNOCK", "TB", "SERVICES"]

  function Fresh(phase: Phase, local: Identity): Machine {
    Machine(phase, None, None, None, None, None, None, None, local)
  }

  // ---------- One step ----------

  /** The first link block with the given name. */
  function FindLink(links: seq<LinkBlock>, name: string): Option<LinkBlock> {
    if links == [] then None else if links[0].name == name then Some(links[0]) else FindLink(links[1..], name)
  }

  /** The first block of a name, which hides any later one. */
  lemma {:induction false} FindLinkIs(links: seq<LinkBlock>, name: string)
    ensures FindLink(links, name).None? <==> forall i :: 0 <= i < |links| ==> links[i].name != name
    ensures FindLink(links, name).Some? ==>
              exists i :: && 0 <= i < |links| && FindLink(links, name).value == links[i] && links[i].name == name
                          && forall j :: 0 <= j < i ==> links[j].name != name
  {
    if links != [] {
      if links[0].name != name {
        FindLinkIs(links[1..], name);
        if FindLink(links, name).Some? {
          var rest := links[1..];
          var i :| 0 <= i < |rest| && FindLink(rest, name).value == rest[i] && rest[i].name == name
                   && forall j :: 0 <= j < i ==> rest[j].name != name;
          assert links[i + 1] == rest[i];
          assert forall j :: 0 < j < i + 1 ==> links[j] == rest[j - 1];
        }
      }
    }
  }

  function Verify(m: Machine, links: seq<LinkBlock>): Result<LinkBlock, Error> {
    if m.remoteName.None? then Err(MissingName)
    else if m.remotePass.None? then Err(AuthenticationFailed)
    else
      match FindLink(links, m.remoteName.value)
      case None => Err(UnknownServer(m.remoteName.value))
      case Some(link) => if link.password != m.remotePass.value then Err(AuthenticationFailed) else Ok(link)
  }

  /** Records one command; what was recorded before an error stays recorded. */
  function Record(m: Machine, c: Command): (Machine, Option<Error>) {
    match c
    case Pass => (m, Some(PassWithoutTs6))
    case PassTs6(password, sid) =>
      var m1 := m.(remotePass := Some(password), sidFromPass := Some(sid));
      if m.remoteSid.None? then (m1.(remoteSid := Some(sid)), None)
      else if m.remoteSid.value != sid then (m1, Some(SidMismatch(sid, m.remoteSid.value)))
      else (m1, None)
    case Capab(caps) => (m.(remoteCapab := Some(caps)), None)
    case Svinfo(v, min, z, t) => (m.(remoteSvinfo := Some((v, min, z, t))), None)
    case Server(name, _, sid, info) =>
      var m1 := m.(remoteName := Some(name));
      if m.sidFromPass.Some? && m.sidFromPass.value != sid then (m1, Some(SidMismatch(m.sidFromPass.value, sid)))
      else (m1.(remoteSid := Some(sid), remoteInfo := Some(info)), None)
    case Cap => (m, None)
    case Other(text) => (m, Some(Unexpected(text)))
  }

  predicate HasAll(m: Machine) {
    m.remotePass.Some? && m.remoteName.Some? && m.remoteSid.Some? && m.remoteSvinfo.Some? && m.remoteCapab.Some?
  }

  /** What each side says about itself. */
  function Greeting(local: Identity, password: string, now: nat): seq<Command> {
    [PassTs6(password, local.sid), Capab(SUPPORTED_CAPABS), Server(local.name, 1, local.sid, local.desc),
     Svinfo(6, 6, 0, now)]
  }

  /** It names the password, its SID twice, its name and description one hop away, and version 6 of the protocol. */
  lemma GreetingSays(local: Identity, password: string, now: nat)
    ensures var g := Greeting(local, password, now);
            && |g| == 4
            && g[0].PassTs6? && g[0].password == password && g[0].sid == local.sid
            && g[1].Capab? && |g[1].caps| == 13 && "EOB" in g[1].caps && "ENCAP" in g[1].caps
            && g[2].Server? && g[2].name == local.name && g[2].hopcount == 1 && g[2].sid == local.sid
            && g[2].info == local.desc
            && g[3].Svinfo? && g[3].current == 6 && g[3].minimum == 6 && g[3].zero == 0 && g[3].time == now
  {
    assert SUPPORTED_CAPABS[9] == "EOB" && SUPPORTED_CAPABS[1] == "ENCAP";
  }

  function Finish(m: Machine, inbound: bool, links: seq<LinkBlock>, now: Option<nat>): (Machine, Result<seq<Command>, Error>) {
    if !HasAll(m) then (m, Ok([]))
    else
      match Verify(m, links)
      case Err(e) => (m, Err(e))
      case Ok(link) =>
        var done := m.(phase := Bursting);
        if !inbound then (done, Ok([]))
        else if now.None? then (done, Err(ClockBeforeEpoch))
        else (done, Ok(Greeting(m.local, link.password, now.value)))
  }

  function Step(m: Machine, c: Command, links: seq<LinkBlock>, now: Option<nat>): (Machine, Result<seq<Command>, Error>) {
    match m.phase
    case Unconnected => (m, Err(InvalidStateTransition))
    case Bursting => (m, Ok([]))
    case Synced => (m, Ok([]))
    case _ =>
      var (m1, error) := Record(m, c);
      if error.Some? then (m1, Err(error.value)) else Finish(m1, m.phase.InboundReceived?, links, now)
  }

  // ---------- Runs ----------

  /** Commands in turn, up to the first error, with all replies. */
  function Feed(m: Machine, cs: seq<Command>, links: seq<LinkBlock>, now: Option<nat>): Result<(Machine, seq<Command>), Error>
    decreases |cs|
  {
    if cs == [] then Ok((m, []))
    else
      var (m1, reply) := Step(m, cs[0], links, now);
      match reply
      case Err(e) => Err(e)
      case Ok(out) =>
        match Feed(m1, cs[1..], links, now)
        case Err(e) => Err(e)
        case Ok(rest) => Ok((rest.0, out + rest.1))
  }

  predicate Open(m: Machine) {
    m.phase.InboundReceived? || m.phase.OutboundInitiated?
  }

  lemma FeedOne(m: Machine, c: Command, links: seq<LinkBlock>, now: Option<nat>)
    ensures var next := Step(m, c, links, now);
            Feed(m, [c], links, now) == if next.1.Err? then Err(next.1.error) else Ok((next.0, next.1.value))
  {
    var next := Step(m, c, links, now);
    assert [c][1..] == [];
    assert Feed(next.0, [], links, now) == Ok((next.0, []));
    assert next.1.Ok? ==> next.1.value + [] == next.1.value;
  }

  lemma {:induction false} FeedAppend(m: Machine, cs: seq<Command>, c: Command, links: seq<LinkBlock>, now: Option<nat>)
    ensures Feed(m, cs, links, now).Err? ==> Feed(m, cs + [c], links, now) == Feed(m, cs, links, now)
    ensures Feed(m, cs, links, now).Ok? ==>
              var next := Step(Feed(m, cs, links, now).value.0, c, links, now);
              && (next.1.Err? ==> Feed(m, cs + [c], links, now) == Err(next.1.error))
              && (next.1.Ok? ==> Feed(m, cs + [c], links, now).Ok? && Feed(m, cs + [c], links, now).value.0 == next.0)
    decreases |cs|
  {
    if cs == [] {
      assert cs + [c] == [c];
      assert Feed(m, cs, links, now) == Ok((m, []));
      FeedOne(m, c, links, now);
    } else {
      FeedAppend(Step(m, cs[0], links, now).0, cs[1..], c, links, now);
      assert (cs + [c])[1..] == cs[1..] + [c];
    }
  }

  /** Once bursting, commands change nothing and get no reply. */
  lemma {:induction false} BurstingIsAbsorbing(m: Machine, cs: seq<Command>, links: seq<LinkBlock>, now: Option<nat>)
    requires m.phase.Bursting?
    ensures Feed(m, cs, links, now) == Ok((m, []))
    decreases |cs|
  {
    if cs != [] {
      BurstingIsAbsorbing(m, cs[1..], links, now);
      var none: seq<Command> := [];
      assert none + none == none;
    }
  }

  // ---------- What a bursting machine has seen ----------

  datatype Kind = KPass | KCapab | KServer | KSvinfo | KNone

  function KindOf(c: Command): Kind {
    match c
    case PassTs6(_, _) => KPass
    case Capab(_) => KCapab
    case Server(_, _, _, _) => KServer
    case Svinfo(_, _, _, _) => KSvinfo
    case _ => KNone
  }

  /** The last command of a kind. */
  ghost function Last(cs: seq<Command>, k: Kind): (c: Option<Command>)
    ensures c.Some? ==> KindOf(c.value) == k && c.value in cs
  {
    if cs == [] then None
    else if KindOf(cs[|cs| - 1]) == k then Some(cs[|cs| - 1]) else Last(cs[..|cs| - 1], k)
  }

  lemma LastAppend(cs: seq<Command>, c: Command, k: Kind)
    ensures Last(cs + [c], k) == if KindOf(c) == k then Some(c) else Last(cs, k)
  {
    assert (cs + [c])[..|cs|] == cs;
  }

  /** The machine's record is what the commands said last, and the SIDs they named agree with the stored one. */
  ghost predicate Tracks(m: Machine, cs: seq<Command>) {
    var pass, server := Last(cs, KPass), Last(cs, KServer);
    && m.remotePass == (if pass.Some? then Some(pass.value.password) else None)
    && m.sidFromPass == (if pass.Some? then Some(pass.value.sid) else None)
    && m.remoteName == (if server.Some? then Some(server.value.name) else None)
    && (pass.Some? ==> m.remoteSid == Some(pass.value.sid))
    && (server.Some? ==> m.remoteSid == Some(server.value.sid))
    && (pass.None? && server.None? ==> m.remoteSid.None?)
    && m.remoteInfo == (if server.Some? then Some(server.value.info) else None)
    && CapabTracks(m, Last(cs, KCapab)) && SvinfoTracks(m, Last(cs, KSvinfo))
  }

  ghost predicate CapabTracks(m: Machine, c: Option<Command>) {
    if c.Some? && c.value.Capab? then m.remoteCapab == Some(c.value.caps) else m.remoteCapab.None?
  }

  ghost predicate SvinfoTracks(m: Machine, c: Option<Command>) {
    if c.Some? && c.value.Svinfo? then
      m.remoteSvinfo == Some((c.value.current, c.value.minimum, c.value.zero, c.value.time))
    else m.remoteSvinfo.None?
  }

  lemma TracksStep(m: Machine, cs: seq<Command>, c: Command)
    requires Tracks(m, cs) && Record(m, c).1.None?
    ensures Tracks(Record(m, c).0, cs + [c])
  {
    LastAppend(cs, c, KPass);
    LastAppend(cs, c, KServer);
    LastAppend(cs, c, KCapab);
    LastAppend(cs, c, KSvinfo);
  }

  ghost predicate SawAll(cs: seq<Command>) {
    Last(cs, KPass).Some? && Last(cs, KServer).Some? && Last(cs, KCapab).Some? && Last(cs, KSvinfo).Some?
  }

  /** The link block named by the last SERVER holds the password of the last PASS, and both name the stored SID. */
  ghost predicate Authenticated(m: Machine, cs: seq<Command>, links: seq<LinkBlock>) {
    && SawAll(cs)
    && FindLink(links, Last(cs, KServer).value.name).Some?
    && FindLink(links, Last(cs, KServer).value.name).value.password == Last(cs, KPass).value.password
    && m.remoteSid == Some(Last(cs, KPass).value.sid) == Some(Last(cs, KServer).value.sid)
  }

  lemma OpenStep(m: Machine, cs: seq<Command>, c: Command, links: seq<LinkBlock>, now: Option<nat>)
    requires Open(m) && Tracks(m, cs) && Step(m, c, links, now).1.Ok?
    ensures var m1 := Step(m, c, links, now).0;
            && Tracks(m1, cs + [c])
            && (SawAll(cs + [c]) ==> m1.phase.Bursting? && Authenticated(m1, cs + [c], links))
            && (!SawAll(cs + [c]) ==> m1.phase == m.phase)
  {
    var m1 := Record(m, c).0;
    TracksStep(m, cs, c);
    TracksAll(m1, cs + [c]);
    if HasAll(m1) {
      PhaseAside(m1, cs + [c]);
    }
  }

  /** The machine has all it needs exactly when all four kinds have been seen. */
  lemma TracksAll(m: Machine, cs: seq<Command>)
    requires Tracks(m, cs)
    ensures HasAll(m) <==> SawAll(cs)
  {
  }

  lemma PhaseAside(m: Machine, cs: seq<Command>)
    requires Tracks(m, cs)
    ensures Tracks(m.(phase := Bursting), cs)
  {
  }

  /**
   In an error-free run from the start, the machine bursts at the first command after which all four kinds have been
   seen, and not before; and at that point the peer is authenticated.
   */
  lemma {:induction false} BurstsWhenAllSeen(m: Machine, cs: seq<Command>, links: seq<LinkBlock>, now: Option<nat>)
    requires Open(m) && m == Fresh(m.phase, m.local) && Feed(m, cs, links, now).Ok?
    ensures var end := Feed(m, cs, links, now).value.0;
            && (end.phase.Bursting? <==> SawAll(cs))
            && (!SawAll(cs) ==> end.phase == m.phase && Tracks(end, cs))
            && (SawAll(cs) ==> exists n: nat :: Completed(end, cs, links, n) && Tracks(end, cs[..n]))
  {
    if cs != [] {
      var init, c := cs[..|cs| - 1], cs[|cs| - 1];
      assert cs == init + [c];
      FeedAppend(m, init, c, links, now);
      BurstsWhenAllSeen(m, init, links, now);
      var mid := Feed(m, init, links, now).value.0;
      if SawAll(init) {
        CompletionStays(mid, init, c, links);
      } else {
        OpenStep(mid, init, c, links, now);
        assert cs[..|cs|] == cs;
        assert SawAll(cs) ==> Completed(Feed(m, cs, links, now).value.0, cs, links, |cs|);
      }
    }
  }

  /** The n-th command completed the set of four, and authenticated the peer. */
  ghost predicate Completed(m: Machine, cs: seq<Command>, links: seq<LinkBlock>, n: nat) {
    0 < n <= |cs| && SawAll(cs[..n]) && !SawAll(cs[..n - 1]) && Authenticated(m, cs[..n], links)
  }

  lemma CompletionStays(m: Machine, cs: seq<Command>, c: Command, links: seq<LinkBlock>)
    requires SawAll(cs) && exists n: nat :: Completed(m, cs, links, n) && Tracks(m, cs[..n])
    ensures SawAll(cs + [c]) && exists n: nat :: Completed(m, cs + [c], links, n) && Tracks(m, (cs + [c])[..n])
  {
    var n: nat :| Completed(m, cs, links, n) && Tracks(m, cs[..n]);
    CompletedMore(m, cs, c, links, n);
    SawAllGrows(cs, c);
  }

  lemma CompletedMore(m: Machine, cs: seq<Command>, c: Command, links: seq<LinkBlock>, n: nat)
    requires Completed(m, cs, links, n)
    ensures Completed(m, cs + [c], links, n) && (cs + [c])[..n] == cs[..n]
  {
    assert (cs + [c])[..n] == cs[..n] && (cs + [c])[..n - 1] == cs[..n - 1];
  }

  lemma SawAllGrows(cs: seq<Command>, c: Command)
    requires SawAll(cs)
    ensures SawAll(cs + [c])
  {
    LastAppend(cs, c, KPass);
    LastAppend(cs, c, KServer);
    LastAppend(cs, c, KCapab);
    LastAppend(cs, c, KSvinfo);
  }

  // ---------- The order of the commands does not matter ----------

  /** Nothing of this kind has been recorded yet. */
  predicate Unseen(m: Machine, k: Kind) {
    match k
    case KPass => m.remotePass.None? && m.sidFromPass.None? && (m.remoteName.None? ==> m.remoteSid.None?)
    case KServer => m.remoteName.None?
    case KCapab => m.remoteCapab.None?
    case KSvinfo => m.remoteSvinfo.None?
    case KNone => false
  }

  /** Both commands recorded, or the error that one of them raises. */
  function RecordTwo(m: Machine, a: Command, b: Command): Result<Machine, Error> {
    var (m1, e1) := Record(m, a);
    if e1.Some? then Err(e1.value)
    else
      var (m2, e2) := Record(m1, b);
      if e2.Some? then Err(e2.value) else Ok(m2)
  }

  lemma RecordsCommute(m: Machine, a: Command, b: Command)
    requires Unseen(m, KindOf(a)) && Unseen(m, KindOf(b)) && KindOf(a) != KindOf(b)
    ensures RecordTwo(m, a, b) == RecordTwo(m, b, a)
    ensures Record(m, a).1.None? ==> !HasAll(Record(m, a).0)
  {
  }

  /** What follows once two commands have been recorded. */
  function Proceed(m: Machine, inbound: bool, rest: seq<Command>, links: seq<LinkBlock>, now: Option<nat>)
    : Result<(Machine, seq<Command>), Error>
  {
    var (m1, reply) := Finish(m, inbound, links, now);
    match reply
    case Err(e) => Err(e)
    case Ok(out) =>
      match Feed(m1, rest, links, now)
      case Err(e) => Err(e)
      case Ok(more) => Ok((more.0, out + more.1))
  }

  lemma FeedTwo(m: Machine, a: Command, b: Command, rest: seq<Command>, links: seq<LinkBlock>, now: Option<nat>)
    requires Open(m) && (Record(m, a).1.None? ==> !HasAll(Record(m, a).0))
    ensures RecordTwo(m, a, b).Err? ==> Feed(m, [a, b] + rest, links, now) == Err(RecordTwo(m, a, b).error)
    ensures RecordTwo(m, a, b).Ok? ==>
              Feed(m, [a, b] + rest, links, now)
              == Proceed(RecordTwo(m, a, b).value, m.phase.InboundReceived?, rest, links, now)
  {
    var cs := [a, b] + rest;
    assert cs[0] == a && cs[1..][0] == b && cs[1..][1..] == rest;
    if Record(m, a).1.None? {
      var m1 := Record(m, a).0;
      assert Step(m, a, links, now) == (m1, Ok([]));
      var tail := Feed(m1, cs[1..], links, now);
      assert tail.Ok? ==> [] + tail.value.1 == tail.value.1;
    }
  }

  /** Two commands of different kinds, neither kind seen before, can be exchanged. */
  lemma ExchangeTwo(m: Machine, a: Command, b: Command, rest: seq<Command>, links: seq<LinkBlock>, now: Option<nat>)
    requires Open(m) && Unseen(m, KindOf(a)) && Unseen(m, KindOf(b)) && KindOf(a) != KindOf(b)
    ensures Feed(m, [a, b] + rest, links, now) == Feed(m, [b, a] + rest, links, now)
  {
    RecordsCommute(m, a, b);
    RecordsCommute(m, b, a);
    FeedTwo(m, a, b, rest, links, now);
    FeedTwo(m, b, a, rest, links, now);
  }

  /** At most one command of each of the four kinds, and nothing else. */
  ghost predicate Varied(cs: seq<Command>) {
    && (forall i :: 0 <= i < |cs| ==> KindOf(cs[i]) != KNone)
    && (forall i, j :: 0 <= i < j < |cs| ==> KindOf(cs[i]) != KindOf(cs[j]))
  }

  ghost predicate AllUnseen(m: Machine, cs: seq<Command>) {
    forall i :: 0 <= i < |cs| ==> Unseen(m, KindOf(cs[i]))
  }

  lemma UnseenKept(m: Machine, a: Command, k: Kind, links: seq<LinkBlock>, now: Option<nat>)
    requires Open(m) && Unseen(m, KindOf(a)) && Unseen(m, k) && k != KindOf(a) && Step(m, a, links, now).1.Ok?
    ensures Open(Step(m, a, links, now).0) && Unseen(Step(m, a, links, now).0, k)
  {
  }

  lemma FeedHead(m: Machine, c: Command, s: seq<Command>, t: seq<Command>, links: seq<LinkBlock>, now: Option<nat>)
    requires Step(m, c, links, now).1.Ok?
             ==> Feed(Step(m, c, links, now).0, s, links, now) == Feed(Step(m, c, links, now).0, t, links, now)
    ensures Feed(m, [c] + s, links, now) == Feed(m, [c] + t, links, now)
  {
    assert ([c] + s)[1..] == s && ([c] + t)[1..] == t;
  }

  lemma AllUnseenTail(m: Machine, c: Command, rest: seq<Command>, links: seq<LinkBlock>, now: Option<nat>)
    requires Open(m) && Varied([c] + rest) && AllUnseen(m, [c] + rest) && Step(m, c, links, now).1.Ok?
    ensures Varied(rest) && AllUnseen(Step(m, c, links, now).0, rest)
    ensures rest != [] ==> Open(Step(m, c, links, now).0)
  {
    var cs := [c] + rest;
    assert cs[0] == c;
    if rest != [] {
      assert cs[1] == rest[0];
      UnseenKept(m, c, KindOf(rest[0]), links, now);
    }
    forall i | 0 <= i < |rest|
      ensures Unseen(Step(m, c, links, now).0, KindOf(rest[i]))
    {
      assert cs[i + 1] == rest[i];
      UnseenKept(m, c, KindOf(rest[i]), links, now);
    }
    forall i, j | 0 <= i < j < |rest|
      ensures KindOf(rest[i]) != KindOf(rest[j])
    {
      assert cs[i + 1] == rest[i] && cs[j + 1] == rest[j];
    }
    forall i | 0 <= i < |rest|
      ensures KindOf(rest[i]) != KNone
    {
      assert cs[i + 1] == rest[i];
    }
  }

  /** A command can be brought to the front. */
  lemma {:induction false} MoveToFront(m: Machine, pre: seq<Command>, x: Command, post: seq<Command>,
                                       links: seq<LinkBlock>, now: Option<nat>)
    requires Open(m) && Varied(pre + [x] + post) && AllUnseen(m, pre + [x] + post)
    ensures Feed(m, pre + [x] + post, links, now) == Feed(m, [x] + (pre + post), links, now)
    decreases |pre|
  {
    if pre == [] {
      assert pre + [x] + post == [x] + (pre + post);
    } else {
      var p, pre' := pre[0], pre[1..];
      FirstOf(pre, x, post);
      if Step(m, p, links, now).1.Ok? {
        AllUnseenTail(m, p, pre' + [x] + post, links, now);
        MoveToFront(Step(m, p, links, now).0, pre', x, post, links, now);
      }
      FeedHead(m, p, pre' + [x] + post, [x] + (pre' + post), links, now);
      ExchangeHeads(m, p, x, pre' + post, links, now);
    }
  }

  lemma FirstOf(pre: seq<Command>, x: Command, post: seq<Command>)
    requires pre != []
    ensures pre + [x] + post == [pre[0]] + (pre[1..] + [x] + post)
    ensures (pre + [x] + post)[0] == pre[0] && (pre + [x] + post)[|pre|] == x
    ensures [pre[0]] + (pre[1..] + post) == pre + post
  {
  }

  lemma ExchangeHeads(m: Machine, a: Command, b: Command, rest: seq<Command>, links: seq<LinkBlock>, now: Option<nat>)
    requires Open(m) && Unseen(m, KindOf(a)) && Unseen(m, KindOf(b)) && KindOf(a) != KindOf(b)
    ensures Feed(m, [a] + ([b] + rest), links, now) == Feed(m, [b] + ([a] + rest), links, now)
  {
    ExchangeTwo(m, a, b, rest, links, now);
    assert [a] + ([b] + rest) == [a, b] + rest;
    assert [b] + ([a] + rest) == [b, a] + rest;
  }

  lemma RemoveOne(cs: seq<Command>, ds: seq<Command>) returns (pre: seq<Command>, post: seq<Command>)
    requires ds != [] && multiset(cs) == multiset(ds)
    ensures cs == pre + [ds[0]] + post
    ensures multiset(pre + post) == multiset(ds[1..])
  {
    assert ds == [ds[0]] + ds[1..];
    assert ds[0] in multiset(cs);
    var i :| 0 <= i < |cs| && cs[i] == ds[0];
    pre, post := cs[..i], cs[i + 1..];
    assert cs == pre + [cs[i]] + post;
    assert multiset(ds) == multiset{ds[0]} + multiset(ds[1..]);
    assert multiset(cs) == multiset(pre) + multiset{ds[0]} + multiset(post);
    assert multiset(pre + post) == multiset(cs) - multiset{ds[0]};
    assert multiset(ds[1..]) == multiset(ds) - multiset{ds[0]};
  }

  /** Bringing one command of a varied sequence to the front leaves it varied. */
  lemma VariedFront(m: Machine, pre: seq<Command>, x: Command, post: seq<Command>)
    requires Varied(pre + [x] + post) && AllUnseen(m, pre + [x] + post)
    ensures Varied([x] + (pre + post)) && AllUnseen(m, [x] + (pre + post))
  {
    var cs, ds := pre + [x] + post, [x] + (pre + post);
    forall i | 0 <= i < |ds|
      ensures ds[i] == cs[Origin(|pre|, i)]
    {
    }
  }

  function Origin(n: nat, i: nat): nat {
    if i == 0 then n else if i <= n then i - 1 else i
  }

  /** Commands of different kinds give the same outcome - machine, replies or error - in every order. */
  lemma {:induction false} OrderDoesNotMatter(m: Machine, cs: seq<Command>, ds: seq<Command>, links: seq<LinkBlock>, now: Option<nat>)
    requires Open(m) && Varied(cs) && AllUnseen(m, cs) && multiset(cs) == multiset(ds)
    ensures Feed(m, cs, links, now) == Feed(m, ds, links, now)
    decreases |cs|
  {
    assert |cs| == |multiset(cs)| == |multiset(ds)| == |ds|;
    if ds != [] {
      var x := ds[0];
      var pre, post := RemoveOne(cs, ds);
      MoveToFront(m, pre, x, post, links, now);
      VariedFront(m, pre, x, post);
      if Step(m, x, links, now).1.Ok? {
        AllUnseenTail(m, x, pre + post, links, now);
        if pre + post != [] {
          OrderDoesNotMatter(Step(m, x, links, now).0, pre + post, ds[1..], links, now);
        } else {
          assert ds[1..] == [] by {
            assert |multiset(ds[1..])| == 0;
          }
        }
      }
      FeedHead(m, x, pre + post, ds[1..], links, now);
      assert ds == [x] + ds[1..];
    }
  }

  /** So a machine that has just been started may be sent the four commands in any order. */
  lemma AnyOrderFromTheStart(m: Machine, cs: seq<Command>, ds: seq<Command>, links: seq<LinkBlock>, now: Option<nat>)
    requires Open(m) && m == Fresh(m.phase, m.local) && multiset(cs) == multiset(ds)
    requires forall i :: 0 <= i < |cs| ==> KindOf(cs[i]) != KNone
    requires forall i, j :: 0 <= i < j < |cs| ==> KindOf(cs[i]) != KindOf(cs[j])
    ensures Feed(m, cs, links, now) == Feed(m, ds, links, now)
  {
    OrderDoesNotMatter(m, cs, ds, links, now);
  }

  // ---------- An initiator against a responder ----------

  /** The peer's greeting, fed to a fresh machine: authenticated against the first block with the peer's name. */
  lemma GreetingOutcome(m: Machine, peer: Identity, password: string, links: seq<LinkBlock>, sent: nat, now: Option<nat>)
    requires Open(m) && m == Fresh(m.phase, m.local)
    ensures var outcome := Feed(m, Greeting(peer, password, sent), links, now);
            match FindLink(links, peer.name)
            case None => outcome == Err(UnknownServer(peer.name))
            case Some(link) =>
              if link.password != password then outcome == Err(AuthenticationFailed)
              else if m.phase.InboundReceived? && now.None? then outcome == Err(ClockBeforeEpoch)
              else outcome.Ok? && outcome.value.0.phase.Bursting? && outcome.value.0.remoteSid == Some(peer.sid)
                   && outcome.value.0.remoteName == Some(peer.name) && outcome.value.0.remoteInfo == Some(peer.desc)
                   && outcome.value.0.remotePass == Some(password) && outcome.value.0.local == m.local
                   && outcome.value.0.remoteSvinfo == Some((6, 6, 0, sent))
                   && outcome.value.0.remoteCapab == Some(SUPPORTED_CAPABS)
                   && outcome.value.1 == if m.phase.InboundReceived? then Greeting(m.local, password, now.value) else []
  {
    var g := Greeting(peer, password, sent);
    var m1 := Record(m, g[0]).0;
    var m2 := Record(m1, g[1]).0;
    var m3 := Record(m2, g[2]).0;
    assert g[1..][0] == g[1] && g[1..][1..][0] == g[2] && g[1..][1..][1..] == [g[3]];
    FeedOne(m3, g[3], links, now);
    assert Feed(m3, g[1..][1..][1..], links, now) == Feed(m3, [g[3]], links, now);
    FeedQuiet(m2, g[1..][1..], links, now);
    FeedQuiet(m1, g[1..], links, now);
    FeedQuiet(m, g, links, now);
  }

  /** A command that is recorded without completing the handshake gets no reply. */
  lemma FeedQuiet(m: Machine, cs: seq<Command>, links: seq<LinkBlock>, now: Option<nat>)
    requires Open(m) && cs != [] && Record(m, cs[0]).1.None? && !HasAll(Record(m, cs[0]).0)
    ensures Feed(m, cs, links, now) == Feed(Record(m, cs[0]).0, cs[1..], links, now)
  {
    var tail := Feed(Record(m, cs[0]).0, cs[1..], links, now);
    assert tail.Ok? ==> [] + tail.value.1 == tail.value.1;
  }

  /**
   A connection between two servers: the initiator greets with the password of its link block, the responder checks the
   greeting against its own blocks and answers, and the initiator checks the answer against the block it dialled with.
   The responder bursts and answers exactly when its first block for the initiator holds the initiator's password and its
   clock can be read. The initiator then bursts exactly when the responder goes by the name it was dialled under; the
   password it gets back is the one it sent.
   */
  lemma BothBurstIff(initiator: Identity, responder: Identity, dialled: LinkBlock, links: seq<LinkBlock>,
                     sent: nat, answered: Option<nat>, now: Option<nat>)
    ensures var there := Feed(Fresh(InboundReceived, responder), Greeting(initiator, dialled.password, sent), links, answered);
            var block := FindLink(links, initiator.name);
            && (there.Ok? <==> block.Some? && block.value.password == dialled.password && answered.Some?)
            && (there.Ok? ==>
                  var back := Feed(Fresh(OutboundInitiated, initiator), there.value.1, [dialled], now);
                  && there.value.0.phase.Bursting? && there.value.0.remoteSid == Some(initiator.sid)
                  && (back.Ok? <==> dialled.name == responder.name)
                  && (back.Ok? ==> back.value.0.phase.Bursting? && back.value.0.remoteSid == Some(responder.sid))
                  && (back.Err? ==> back == Err(UnknownServer(responder.name))))
  {
    GreetingOutcome(Fresh(InboundReceived, responder), initiator, dialled.password, links, sent, answered);
    if answered.Some? {
      GreetingOutcome(Fresh(OutboundInitiated, initiator), responder, dialled.password, [dialled], answered.value, now);
    }
  }

  // ---------- The machine object ----------

  class HandshakeMachine {
    var phase: Phase
    var remoteName: Option<string>
    var remotePass: Option<string>
    var remoteSid: Option<Sid>
    var sidFromPass: Option<Sid>
    var remoteInfo: Option<string>
    var remoteCapab: Option<seq<string>>
    var remoteSvinfo: Option<(nat, nat, nat, nat)>
    const local: Identity

    ghost function Snapshot(): Machine
      reads this
    {
      Machine(phase, remoteName, remotePass, remoteSid, sidFromPass, remoteInfo, remoteCapab, remoteSvinfo, local)
    }

    constructor (local: Identity)
      ensures Snapshot() == Fresh(Unconnected, local)
    {
      this.local := local;
      phase := Unconnected;
      remoteName, remotePass, remoteSid, sidFromPass, remoteInfo := None, None, None, None, None;
      remoteCapab, remoteSvinfo := None, None;
    }

    method Transition(next: Phase)
      modifies this
      ensures Snapshot() == old(Snapshot()).(phase := next)
    {
      phase := next;
    }

    method VerifyCredentials(links: seq<LinkBlock>) returns (link: Result<LinkBlock, Error>)
      ensures link == Verify(Snapshot(), links)
    {
      if remoteName.None? {
        return Err(MissingName);
      }
      if remotePass.None? {
        return Err(AuthenticationFailed);
      }
      var i := 0;
      while i < |links| && links[i].name != remoteName.value
        invariant 0 <= i <= |links|
        invariant FindLink(links, remoteName.value) == FindLink(links[i..], remoteName.value)
      {
        i := i + 1;
      }
      if i == |links| {
        return Err(UnknownServer(remoteName.value));
      }
      if links[i].password != remotePass.value {
        return Err(AuthenticationFailed);
      }
      return Ok(links[i]);
    }

    method CheckHandshakeComplete(links: seq<LinkBlock>) returns (done: Result<bool, Error>)
      modifies this`phase
      ensures !HasAll(old(Snapshot())) ==> done == Ok(false) && phase == old(phase)
      ensures HasAll(old(Snapshot())) && Verify(old(Snapshot()), links).Ok? ==> done == Ok(true) && phase == Bursting
      ensures HasAll(old(Snapshot())) && Verify(old(Snapshot()), links).Err? ==>
                done == Err(Verify(old(Snapshot()), links).error) && phase == old(phase)
    {
      if remotePass.Some? && remoteName.Some? && remoteSid.Some? && remoteSvinfo.Some? && remoteCapab.Some? {
        var link := VerifyCredentials(links);
        if link.Err? {
          return Err(link.error);
        }
        phase := Bursting;
        return Ok(true);
      }
      return Ok(false);
    }

    method HandleCommand(c: Command) returns (error: Option<Error>)
      modifies this
      ensures (Snapshot(), error) == Record(old(Snapshot()), c)
    {
      error := None;
      match c
      case Pass =>
        error := Some(PassWithoutTs6);
      case PassTs6(password, sid) =>
        remotePass := Some(password);
        sidFromPass := Some(sid);
        if remoteSid.Some? {
          if remoteSid.value != sid {
            error := Some(SidMismatch(sid, remoteSid.value));
          }
        } else {
          remoteSid := Some(sid);
        }
      case Capab(caps) =>
        remoteCapab := Some(caps);
      case Svinfo(v, min, z, t) =>
        remoteSvinfo := Some((v, min, z, t));
      case Server(name, hopcount, sid, info) =>
        remoteName := Some(name);
        if sidFromPass.Some? && sidFromPass.value != sid {
          error := Some(SidMismatch(sidFromPass.value, sid));
          return;
        }
        remoteSid := Some(sid);
        remoteInfo := Some(info);
      case Cap =>
      case Other(text) =>
        error := Some(Unexpected(text));
    }

    method HandleOutboundStep(c: Command, links: seq<LinkBlock>, now: Option<nat>) returns (reply: Result<seq<Command>, Error>)
      requires phase.OutboundInitiated?
      modifies this
      ensures (Snapshot(), reply) == Step(old(Snapshot()), c, links, now)
    {
      var error := HandleCommand(c);
      if error.Some? {
        return Err(error.value);
      }
      var done := CheckHandshakeComplete(links);
      if done.Err? {
        return Err(done.error);
      }
      return Ok([]);
    }

    method HandleInboundStep(c: Command, links: seq<LinkBlock>, now: Option<nat>) returns (reply: Result<seq<Command>, Error>)
      requires phase.InboundReceived?
      modifies this
      ensures (Snapshot(), reply) == Step(old(Snapshot()), c, links, now)
    {
      var error := HandleCommand(c);
      if error.Some? {
        return Err(error.value);
      }
      var done := CheckHandshakeComplete(links);
      if done.Err? {
        return Err(done.error);
      }
      if !done.value {
        return Ok([]);
      }
      // The same check on the same record as in CheckHandshakeComplete: it cannot fail here.
      var link := VerifyCredentials(links);
      if now.None? {
        return Err(ClockBeforeEpoch);
      }
      return Ok(Greeting(local, link.value.password, now.value));
    }

    method StepMachine(c: Command, links: seq<LinkBlock>, now: Option<nat>) returns (reply: Result<seq<Command>, Error>)
      modifies this
      ensures (Snapshot(), reply) == Step(old(Snapshot()), c, links, now)
    {
      match phase
      case Unconnected =>
        return Err(InvalidStateTransition);
      case OutboundInitiated =>
        reply := HandleOutboundStep(c, links, now);
      case InboundReceived =>
        reply := HandleInboundStep(c, links, now);
      case _ =>
        return Ok([]);
    }
  }
}
