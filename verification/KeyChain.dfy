/** Signing keys introduced by signed links, starting from the pinned roots. */
module KeyChain {
  import opened Outcomes
  import opened Tokens

  datatype Chain = Chain(sequence: int, ring: Ring)

  /** One link: a trusted key signs the introduction of a key under a new or an already equal identifier. */
  function Transition(cfg: Config, compact: string, previous: int, trusted: Ring): Result<Chain> {
    match VerifyJws(cfg, compact, KeysetKind, trusted)
    case Err(f) => Err(f)
    case Ok(token) =>
      var c := token.claims;
      if !Audience(cfg, token) || c.oldKid != token.kid || !Timestamp(c.issued)
         || !SafePositive(c.keysetSequence) || c.keysetSequence <= previous
         || (c.newKid in trusted && trusted[c.newKid] != c.newKey)
      then Err(InvalidToken)
      else Ok(Chain(c.keysetSequence, trusted[c.newKid := c.newKey]))
  }

  /** The links one after the other. */
  function Replay(cfg: Config, links: seq<string>, start: Chain): Result<Chain>
    decreases |links|
  {
    if |links| == 0 then Ok(start)
    else
      match Replay(cfg, links[..|links| - 1], start)
      case Err(f) => Err(f)
      case Ok(c) => Transition(cfg, links[|links| - 1], c.sequence, c.ring)
  }

  /** The ring that links derive from the pinned roots, when they end at the expected sequence. */
  function Restore(cfg: Config, links: seq<string>, expected: int): Result<Ring> {
    match Replay(cfg, links, Chain(0, cfg.pinned))
    case Err(f) => Err(InvalidState)
    case Ok(c) => if c.sequence != expected then Err(InvalidState) else Ok(c.ring)
  }

  // ---- what a chain of links is ----

  /** A link: a trusted key, named in it, signs a key under an identifier that is new or has that key already. */
  ghost predicate Links(cfg: Config, compact: string, from: Chain, to: Chain) {
    exists c ::
      && Says(cfg, compact, c, from.ring) && Addressed(cfg, compact)
      && c.KeysetClaims? && c.oldKid == cfg.parse(compact).value.kid && 0 <= c.issued <= 2932897 * 86400 - 1
      && from.sequence < to.sequence == c.keysetSequence && 0 < to.sequence <= 0x1f_ffff_ffff_ffff
      && Extends(to.ring, from.ring) && to.ring.Keys == from.ring.Keys + {c.newKid} && to.ring[c.newKid] == c.newKey
  }

  lemma TransitionMeans(cfg: Config, compact: string, from: Chain, to: Chain)
    ensures var r := Transition(cfg, compact, from.sequence, from.ring);
            && (r == Ok(to) <==> Links(cfg, compact, from, to))
            && (r.Err? ==> r.failure == if Forged(cfg, compact, KeysetKind, from.ring) then InvalidSignature
                                        else InvalidToken)
  {
    JwsMeans(cfg, compact, KeysetKind, from.ring);
    if Links(cfg, compact, from, to) {
      var c := cfg.parse(compact).value.claims;
      assert to.ring == from.ring[c.newKid := c.newKey];
    }
  }

  /** chains[i] is what the first i links derive. */
  ghost predicate Derives(cfg: Config, links: seq<string>, chains: seq<Chain>) {
    && |chains| == |links| + 1
    && forall i {:trigger links[i]} | 0 <= i < |links| :: Links(cfg, links[i], chains[i], chains[i + 1])
  }

  ghost predicate Leads(cfg: Config, links: seq<string>, start: Chain, end: Chain) {
    exists chains :: Derives(cfg, links, chains) && chains[0] == start && chains[|links|] == end
  }

  /** A replay gives what a sequence of chains, each derived from the one before by its link, ends with. */
  lemma ReplayMeans(cfg: Config, links: seq<string>, start: Chain, end: Chain)
    ensures Replay(cfg, links, start) == Ok(end) <==> Leads(cfg, links, start, end)
  {
    if Replay(cfg, links, start) == Ok(end) {
      var chains := LeadsFrom(cfg, links, start, end);
    }
    if Leads(cfg, links, start, end) {
      LeadsBack(cfg, links, start, end);
    }
  }

  /** It fails as the first link that does not fit what the links before it derived. */
  lemma {:induction false} ReplayFails(cfg: Config, links: seq<string>, start: Chain) returns (n: nat)
    requires Replay(cfg, links, start).Err?
    ensures n < |links| && Replay(cfg, links[..n], start).Ok?
    ensures var before := Replay(cfg, links[..n], start).value;
            && (forall after :: !Links(cfg, links[n], before, after))
            && Replay(cfg, links, start)
               == Err(if Forged(cfg, links[n], KeysetKind, before.ring) then InvalidSignature else InvalidToken)
    decreases |links|
  {
    n := |links| - 1;
    if Replay(cfg, links[..n], start).Err? {
      var known := links[..n];
      n := ReplayFails(cfg, known, start);
      assert known[..n] == links[..n];
    } else {
      var before := Replay(cfg, links[..n], start).value;
      forall after
        ensures !Links(cfg, links[n], before, after)
      {
        TransitionMeans(cfg, links[n], before, after);
      }
      TransitionMeans(cfg, links[n], before, before);
    }
  }

  lemma {:induction false} LeadsFrom(cfg: Config, links: seq<string>, start: Chain, end: Chain)
    returns (chains: seq<Chain>)
    requires Replay(cfg, links, start) == Ok(end)
    ensures Derives(cfg, links, chains) && chains[0] == start && chains[|links|] == end
  {
    if |links| == 0 {
      chains := [start];
    } else {
      var before := links[..|links| - 1];
      var c := Replay(cfg, before, start).value;
      var earlier := LeadsFrom(cfg, before, start, c);
      TransitionMeans(cfg, links[|links| - 1], c, end);
      OneMoreLink(cfg, links, earlier, end);
      chains := earlier + [end];
    }
  }

  lemma OneMoreLink(cfg: Config, links: seq<string>, chains: seq<Chain>, end: Chain)
    requires |links| > 0 && Derives(cfg, links[..|links| - 1], chains)
    requires Links(cfg, links[|links| - 1], chains[|links| - 1], end)
    ensures Derives(cfg, links, chains + [end])
  {
    forall i | 0 <= i < |links|
      ensures Links(cfg, links[i], (chains + [end])[i], (chains + [end])[i + 1])
    {
      if i < |links| - 1 {
        assert links[i] == links[..|links| - 1][i];
      }
    }
  }

  lemma {:induction false} LeadsBack(cfg: Config, links: seq<string>, start: Chain, end: Chain)
    requires Leads(cfg, links, start, end)
    ensures Replay(cfg, links, start) == Ok(end)
  {
    var chains :| Derives(cfg, links, chains) && chains[0] == start && chains[|links|] == end;
    if |links| > 0 {
      var last := |links| - 1;
      assert forall i | 0 <= i < last :: links[..last][i] == links[i];
      assert Derives(cfg, links[..last], chains[..|links|]);
      LeadsBack(cfg, links[..last], start, chains[last]);
      assert links[last] == links[last];
      TransitionMeans(cfg, links[last], chains[last], end);
    }
  }

  /** A chain can be restored exactly when it leads from the pinned roots to the expected sequence. */
  lemma RestoreMeans(cfg: Config, links: seq<string>, expected: int)
    ensures var r := Restore(cfg, links, expected);
            && (forall ring :: r == Ok(ring) <==> Leads(cfg, links, Chain(0, cfg.pinned), Chain(expected, ring)))
            && (r.Err? ==> r == Err(InvalidState))
  {
    forall ring
      ensures Restore(cfg, links, expected) == Ok(ring)
              <==> Leads(cfg, links, Chain(0, cfg.pinned), Chain(expected, ring))
    {
      ReplayMeans(cfg, links, Chain(0, cfg.pinned), Chain(expected, ring));
    }
  }

  // ---- what a chain of links keeps ----

  lemma TransitionExtends(cfg: Config, compact: string, previous: int, trusted: Ring)
    requires Transition(cfg, compact, previous, trusted).Ok?
    ensures var c := Transition(cfg, compact, previous, trusted).value;
            Extends(c.ring, trusted) && previous < c.sequence <= MAX_SAFE
  {
  }

  /** The ring only grows and never rebinds an identifier. */
  lemma {:induction false} ReplayExtends(cfg: Config, links: seq<string>, start: Chain)
    requires Replay(cfg, links, start).Ok?
    ensures var c := Replay(cfg, links, start).value;
            Extends(c.ring, start.ring) && start.sequence + |links| <= c.sequence
            && (start.sequence <= MAX_SAFE ==> c.sequence <= MAX_SAFE)
  {
    if |links| > 0 {
      var before := links[..|links| - 1];
      ReplayExtends(cfg, before, start);
      var c := Replay(cfg, before, start).value;
      TransitionExtends(cfg, links[|links| - 1], c.sequence, c.ring);
    }
  }

  lemma {:induction false} ReplayPrefix(cfg: Config, links: seq<string>, n: nat, start: Chain)
    requires n <= |links| && Replay(cfg, links, start).Ok?
    ensures Replay(cfg, links[..n], start).Ok?
  {
    if n < |links| {
      assert links[..|links| - 1][..n] == links[..n];
      ReplayPrefix(cfg, links[..|links| - 1], n, start);
    } else {
      assert links[..n] == links;
    }
  }

  /** Replaying a chain in two parts is replaying it as a whole. */
  lemma {:induction false} ReplayAppend(cfg: Config, known: seq<string>, added: seq<string>, start: Chain)
    ensures Replay(cfg, known + added, start) ==
            match Replay(cfg, known, start)
            case Err(f) => Err(f)
            case Ok(c) => Replay(cfg, added, c)
  {
    if |added| == 0 {
      assert known + added == known;
    } else {
      var links := known + added;
      assert links[..|links| - 1] == known + added[..|added| - 1];
      ReplayAppend(cfg, known, added[..|added| - 1], start);
    }
  }

  /** The ring does not depend on the sequence the replay starts from, only on whether it succeeds. */
  lemma {:induction false} ReplayRing(cfg: Config, links: seq<string>, start: Chain, sequence: int)
    requires Replay(cfg, links, start).Ok? && Replay(cfg, links, Chain(sequence, start.ring)).Ok?
    ensures Replay(cfg, links, start).value.ring == Replay(cfg, links, Chain(sequence, start.ring)).value.ring
    ensures |links| > 0 ==> Replay(cfg, links, start) == Replay(cfg, links, Chain(sequence, start.ring))
  {
    if |links| > 0 {
      ReplayPrefix(cfg, links, |links| - 1, start);
      ReplayPrefix(cfg, links, |links| - 1, Chain(sequence, start.ring));
      ReplayRing(cfg, links[..|links| - 1], start, sequence);
    }
  }

  /** The ring before link i. */
  function RingBefore(cfg: Config, links: seq<string>, i: nat, start: Chain): Ring
    requires i <= |links| && Replay(cfg, links, start).Ok?
  {
    ReplayPrefix(cfg, links, i, start);
    Replay(cfg, links[..i], start).value.ring
  }

  /** Link i introduces the key under the identifier, signed by a key trusted before it. */
  ghost predicate Introduces(cfg: Config, links: seq<string>, i: nat, start: Chain, kid: string, key: string)
    requires i < |links| && Replay(cfg, links, start).Ok?
  {
    && cfg.parse(links[i]).Some?
    && var token := cfg.parse(links[i]).value;
       token.claims.KeysetClaims? && token.claims.newKid == kid && token.claims.newKey == key
       && var before := RingBefore(cfg, links, i, start);
          token.kid in before && cfg.verifies(before[token.kid], links[i])
  }

  /** Every key that is not there at the start was introduced by a link. */
  lemma {:induction false} EveryKeyIntroduced(cfg: Config, links: seq<string>, start: Chain, kid: string)
    requires Replay(cfg, links, start).Ok?
    requires kid in Replay(cfg, links, start).value.ring && kid !in start.ring
    ensures exists i | 0 <= i < |links| ::
            Introduces(cfg, links, i, start, kid, Replay(cfg, links, start).value.ring[kid])
  {
    var before := links[..|links| - 1];
    var last := |links| - 1;
    ReplayPrefix(cfg, links, last, start);
    var c := Replay(cfg, before, start).value;
    if kid in c.ring {
      EveryKeyIntroduced(cfg, before, start, kid);
      var i :| 0 <= i < |before| && Introduces(cfg, before, i, start, kid, c.ring[kid]);
      assert before[..i] == links[..i];
      assert Introduces(cfg, links, i, start, kid, c.ring[kid]);
    } else {
      assert Introduces(cfg, links, last, start, kid, Replay(cfg, links, start).value.ring[kid]);
    }
  }

  /** Every pinned root keeps its key, and every other key has its link. */
  lemma RestoredRing(cfg: Config, links: seq<string>, expected: int)
    requires Restore(cfg, links, expected).Ok?
    ensures var ring := Restore(cfg, links, expected).value;
            Extends(ring, cfg.pinned)
            && forall kid | kid in ring && kid !in cfg.pinned ::
                 exists i | 0 <= i < |links| :: Introduces(cfg, links, i, Chain(0, cfg.pinned), kid, ring[kid])
  {
    var start := Chain(0, cfg.pinned);
    ReplayExtends(cfg, links, start);
    var ring := Restore(cfg, links, expected).value;
    forall kid | kid in ring && kid !in cfg.pinned
      ensures exists i | 0 <= i < |links| :: Introduces(cfg, links, i, start, kid, ring[kid])
    {
      EveryKeyIntroduced(cfg, links, start, kid);
    }
  }

  /** Links added to a restored chain: the incremental ring and the full replay agree. */
  lemma IncrementalIsFull(cfg: Config, known: seq<string>, sequence: int, ring: Ring, added: seq<string>, from: int,
                          chain: Chain, full: int)
    requires Restore(cfg, known, sequence) == Ok(ring)
    requires Replay(cfg, added, Chain(from, ring)) == Ok(chain)
    requires Restore(cfg, known + added, full).Ok?
    ensures Restore(cfg, known + added, full) == Ok(chain.ring)
  {
    var start := Chain(0, cfg.pinned);
    ReplayAppend(cfg, known, added, start);
    ReplayRing(cfg, added, Chain(sequence, ring), from);
  }
}
