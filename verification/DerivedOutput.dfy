/**
 * The per-conversation derived output and its cache, keyed by derivation version, conversation and a
 * hash of the conversation's messages.
 */
module DerivedOutput {
  import opened Domain
  import opened Grouping
  import opened Log
  import opened Pipeline
  import opened Selection
  import opened Sequences
  import opened Wrappers

  datatype ConversationDerivation = ConversationDerivation(
    conversation: ConversationId,
    projections: seq<Projection>,
    scope: Option<Scope>,
    warmup: WarmupDocument,
    developers: Option<SessionDevelopers>,
    hints: seq<RoutingHint>)

  // ---------- content hash ----------

  /**
   * What the hasher is fed: a string is its characters followed by a terminator that no string
   * contains. The hash is modelled as that stream, which is to say without collisions.
   */
  datatype HashUnit = Char(c: char) | End

  type ContentHash = seq<HashUnit>

  function Fed(s: string): ContentHash {
    if s == [] then [End] else [Char(s[0])] + Fed(s[1..])
  }

  function Text(m: MessageEnvelope): ContentHash {
    Fed(m.id) + Fed(m.body)
  }

  /** Each message's id, then its body, in order. */
  function Content(messages: seq<MessageEnvelope>): ContentHash {
    if messages == [] then [] else Text(messages[0]) + Content(messages[1..])
  }

  lemma {:induction false} ContentSnoc(messages: seq<MessageEnvelope>, m: MessageEnvelope)
    ensures Content(messages + [m]) == Content(messages) + Text(m)
  {
    hide Text;
    if messages == [] {
      assert messages + [m] == [m] && [m][1..] == [];
    } else {
      var rest := messages[1..];
      assert (messages + [m])[1..] == rest + [m];
      ContentSnoc(rest, m);
      assert Text(messages[0]) + (Content(rest) + Text(m)) == Text(messages[0]) + Content(rest) + Text(m);
    }
  }

  method ContentHashOf(messages: seq<MessageEnvelope>) returns (hash: ContentHash)
    ensures hash == Content(messages)
  {
    hash := [];
    for i := 0 to |messages|
      invariant hash == Content(messages[..i])
    {
      hide Content;
      PrefixStep(messages, i);
      ContentSnoc(messages[..i], messages[i]);
      assert hash + Fed(messages[i].id) + Fed(messages[i].body) == hash + Text(messages[i]);
      hash := hash + Fed(messages[i].id);
      hash := hash + Fed(messages[i].body);
    }
    WholePrefix(messages);
  }

  lemma NothingHashed(c: ConversationId)
    ensures MessagesFor([], c) == []
  {
  }

  /** The re-scanning form: hash the messages of `c` straight from the whole log. */
  method ContentHashIn(log: seq<MessageEnvelope>, c: ConversationId) returns (hash: ContentHash)
    ensures hash == Content(MessagesFor(log, c))
  {
    hide MessagesFor, Fed, IdsIn;
    hash := [];
    NothingHashed(c);
    for i := 0 to |log|
      invariant hash == Content(MessagesFor(log[..i], c))
    {
      hide Content;
      MessagesForStep(log, i, c);
      if log[i].conversation.id == c {
        ContentSnoc(MessagesFor(log[..i], c), log[i]);
        assert hash + Fed(log[i].id) + Fed(log[i].body) == hash + Text(log[i]);
        hash := hash + Fed(log[i].id);
        hash := hash + Fed(log[i].body);
      } else {
        assert MessagesFor(log[..i + 1], c) == MessagesFor(log[..i], c);
      }
    }
    WholePrefix(log);
  }

  lemma {:induction false} FedDecodes(a: string, b: string, x: ContentHash, y: ContentHash)
    requires Fed(a) + x == Fed(b) + y
    ensures a == b && x == y
  {
    assert (Fed(a) + x)[0] == Fed(a)[0] && (Fed(b) + y)[0] == Fed(b)[0];
    assert (Fed(a) + x)[1..] == Fed(a)[1..] + x && (Fed(b) + y)[1..] == Fed(b)[1..] + y;
    if a == [] {
      assert b == [];
      assert Fed(a)[1..] + x == x && Fed(b)[1..] + y == y;
    } else {
      assert Fed(a)[1..] == Fed(a[1..]) && Fed(b)[1..] == Fed(b[1..]);
      FedDecodes(a[1..], b[1..], x, y);
      assert a == [a[0]] + a[1..] && b == [b[0]] + b[1..];
    }
  }

  lemma TextAssoc(m: MessageEnvelope, rest: ContentHash)
    ensures Text(m) + rest == Fed(m.id) + (Fed(m.body) + rest)
    ensures |Text(m)| > 0
  {
  }

  /** Same ids and bodies, position by position. */
  ghost predicate SameText(ms: seq<MessageEnvelope>, ns: seq<MessageEnvelope>) {
    |ms| == |ns| && forall i :: 0 <= i < |ms| ==> ms[i].id == ns[i].id && ms[i].body == ns[i].body
  }

  /** The content hash separates exactly the message lists that differ in an id or a body. */
  lemma {:induction false} ContentDecides(ms: seq<MessageEnvelope>, ns: seq<MessageEnvelope>)
    ensures Content(ms) == Content(ns) <==> SameText(ms, ns)
  {
    if ms == [] || ns == [] {
      assert |ms| > 0 ==> |Content(ms)| > 0;
      assert |ns| > 0 ==> |Content(ns)| > 0;
    } else {
      var m, n := ms[0], ns[0];
      ContentDecides(ms[1..], ns[1..]);
      TextAssoc(m, Content(ms[1..]));
      TextAssoc(n, Content(ns[1..]));
      if Content(ms) == Content(ns) {
        FedDecodes(m.id, n.id, Fed(m.body) + Content(ms[1..]), Fed(n.body) + Content(ns[1..]));
        FedDecodes(m.body, n.body, Content(ms[1..]), Content(ns[1..]));
        assert forall i :: 1 <= i < |ms| ==> ms[i] == ms[1..][i - 1] && ns[i] == ns[1..][i - 1];
      }
    }
  }

  /** The stream is, message after message, the id's characters, an end, the body's characters, an end. */
  lemma {:induction false} ContentIs(ms: seq<MessageEnvelope>, ns: seq<MessageEnvelope>, m: MessageEnvelope)
    ensures Content(ms + ns) == Content(ms) + Content(ns)
    ensures Content([m]) == Fed(m.id) + Fed(m.body)
    ensures |Fed(m.id)| == |m.id| + 1 && Fed(m.id)[|m.id|] == End
    ensures forall i :: 0 <= i < |m.id| ==> Fed(m.id)[i] == Char(m.id[i])
  {
    assert [m][1..] == [];
    FedIs(m.id);
    if ms == [] {
      assert ms + ns == ns;
    } else {
      assert (ms + ns)[0] == ms[0] && (ms + ns)[1..] == ms[1..] + ns;
      ContentIs(ms[1..], ns, m);
    }
  }

  lemma {:induction false} FedIs(s: string)
    ensures |Fed(s)| == |s| + 1 && Fed(s)[|s|] == End
    ensures forall i :: 0 <= i < |s| ==> Fed(s)[i] == Char(s[i])
  {
    if s != [] {
      FedIs(s[1..]);
    }
  }

  // ---------- derivations ----------

  /** A conversation's derivation from a replay's stores; none when it has no warm-up. */
  function DerivationFrom(
    s: Stores, c: ConversationId, messages: seq<MessageEnvelope>): Option<ConversationDerivation> {
    if c !in s.warmups then None
    else
      Some(ConversationDerivation(
             c,
             Gather(s.projections, Ids(messages)),
             Find(s.scopes, c),
             s.warmups[c],
             Find(s.developers, c),
             Gather(s.hints, Ids(messages))))
  }

  /** What a conversation's derivation must carry, read off the stores. */
  ghost predicate DerivationHolds(
    d: ConversationDerivation, s: Stores, c: ConversationId, messages: seq<MessageEnvelope>)
  {
    && d.conversation == c
    && c in s.warmups && d.warmup == s.warmups[c]
    && d.scope == (if c in s.scopes then Some(s.scopes[c]) else None)
    && d.developers == (if c in s.developers then Some(s.developers[c]) else None)
    && Selects(Ids(messages), d.projections, (id: MessageId) => Find(s.projections, id))
    && Selects(Ids(messages), d.hints, (id: MessageId) => Find(s.hints, id))
  }

  /** A conversation is derived exactly when it has a warm-up document, from its own records in log order. */
  lemma DerivationFromHolds(s: Stores, c: ConversationId, messages: seq<MessageEnvelope>)
    ensures DerivationFrom(s, c, messages).Some? <==> c in s.warmups
    ensures c in s.warmups ==> DerivationHolds(DerivationFrom(s, c, messages).value, s, c, messages)
  {
    GatherSelects(s.projections, Ids(messages));
    GatherSelects(s.hints, Ids(messages));
  }

  /** The re-scanning form used on a warm-up miss. */
  method DerivationFor(log: seq<MessageEnvelope>, s: Stores, c: ConversationId)
    returns (derivation: Option<ConversationDerivation>)
    ensures derivation == DerivationFrom(s, c, MessagesFor(log, c))
  {
    if c !in s.warmups {
      return None;
    }
    var ids := [];
    for i := 0 to |log|
      invariant ids == IdsIn(log[..i], c)
    {
      MessagesForStep(log, i, c);
      if log[i].conversation.id == c {
        ids := ids + [log[i].id];
      }
    }
    WholePrefix(log);
    derivation := Some(ConversationDerivation(
      c, Gather(s.projections, ids), Find(s.scopes, c), s.warmups[c], Find(s.developers, c), Gather(s.hints, ids)));
  }

  // ---------- messages without a projection ----------

  /** The ids outside `projected`, in order. */
  function Outside(ids: seq<MessageId>, projected: set<MessageId>): seq<MessageId> {
    if ids == [] then []
    else Outside(Init(ids), projected) + (if Last(ids) in projected then [] else [Last(ids)])
  }

  /** The messages a derivation has a projection for. */
  function ProjectedIn(d: ConversationDerivation): set<MessageId> {
    set p | p in d.projections :: p.messageId
  }

  /** The unprojected ids are exactly the ids outside, as often and in the order they are given. */
  lemma {:induction false} OutsideSelects(ids: seq<MessageId>, projected: set<MessageId>)
    ensures Selects(ids, Outside(ids, projected), (id: MessageId) => if id in projected then None else Some(id))
  {
    if ids != [] {
      OutsideSelects(Init(ids), projected);
      SelectsNext(ids, Outside(Init(ids), projected), (id: MessageId) => if id in projected then None else Some(id));
    }
  }

  lemma {:induction false} OutsideAgrees(ids: seq<MessageId>, a: set<MessageId>, b: set<MessageId>)
    requires forall id :: id in ids ==> (id in a <==> id in b)
    ensures Outside(ids, a) == Outside(ids, b)
  {
    if ids != [] {
      Snoc(ids);
      OutsideAgrees(Init(ids), a, b);
    }
  }

  // ---------- the cache ----------

  datatype CacheKey = CacheKey(version: string, conversation: ConversationId, content: ContentHash)

  type Rows = map<CacheKey, ConversationDerivation>

  /** Delete the conversation's rows other than the one at the kept version and content. */
  function Prune(rows: Rows, keep: CacheKey): Rows {
    map k | k in rows && !(k.conversation == keep.conversation && k != keep) :: rows[k]
  }

  /** A current key: this conversation's messages in this log. */
  function KeyFor(version: string, log: seq<MessageEnvelope>, c: ConversationId): CacheKey {
    CacheKey(version, c, Content(MessagesFor(log, c)))
  }

  /**
   * What populating does to the rows: put each derived conversation's row, then reclaim the rows it
   * supersedes. A reclaim that fails, or an adapter that never reclaims, is in `kept`.
   */
  function PopulatedRows(
    rows: Rows, s: Stores, log: seq<MessageEnvelope>, version: string, cs: seq<ConversationId>,
    kept: set<ConversationId>): Rows
  {
    if cs == [] then rows
    else
      var c := Last(cs);
      var before := PopulatedRows(rows, s, log, version, Init(cs), kept);
      match DerivationFrom(s, c, MessagesFor(log, c))
      case None => before
      case Some(d) =>
        var put := before[KeyFor(version, log, c) := d];
        if c in kept then put else Prune(put, KeyFor(version, log, c))
  }

  function Derivations(s: Stores, log: seq<MessageEnvelope>, cs: seq<ConversationId>): seq<ConversationDerivation> {
    if cs == [] then []
    else
      Derivations(s, log, Init(cs))
      + (match DerivationFrom(s, Last(cs), MessagesFor(log, Last(cs)))
         case None => []
         case Some(d) => [d])
  }

  /** The derivations are those of the derived conversations, in order. */
  lemma {:induction false} DerivationsSelect(s: Stores, log: seq<MessageEnvelope>, cs: seq<ConversationId>)
    ensures Selects(cs, Derivations(s, log, cs), (c: ConversationId) => DerivationFrom(s, c, MessagesFor(log, c)))
  {
    if cs != [] {
      hide DerivationFrom, MessagesFor;
      DerivationsSelect(s, log, Init(cs));
      SelectsNext(cs, Derivations(s, log, Init(cs)),
                  (c: ConversationId) => DerivationFrom(s, c, MessagesFor(log, c)));
    }
  }

  function Populated(
    rows: Rows, s: Stores, log: seq<MessageEnvelope>, version: string, kept: set<ConversationId>): Rows {
    PopulatedRows(rows, s, log, version, ConversationIds(log), kept)
  }

  /** The derived-output cache: the SQLite adapter reclaims superseded rows, the in-memory one does not. */
  class DerivedOutputCache {
    var rows: Rows
    const reclaims: bool

    constructor (reclaims: bool)
      ensures rows == map[] && this.reclaims == reclaims
    {
      rows := map[];
      this.reclaims := reclaims;
    }

    method Get(key: CacheKey) returns (hit: Option<ConversationDerivation>)
      ensures hit == if key in rows then Some(rows[key]) else None
    {
      hit := if key in rows then Some(rows[key]) else None;
    }

    method Put(key: CacheKey, value: ConversationDerivation)
      modifies this
      ensures rows == old(rows)[key := value]
    {
      rows := rows[key := value];
    }

    /** Best effort: `fails` says that the delete statement failed, which is swallowed. */
    method ReclaimSuperseded(keep: CacheKey, fails: bool)
      modifies this
      ensures rows == if reclaims && !fails then Prune(old(rows), keep) else old(rows)
    {
      if reclaims && !fails {
        rows := map k | k in rows && !(k.conversation == keep.conversation && k != keep) :: rows[k];
      }
    }
  }

  /** The conversations whose superseded rows stay: all of them when the adapter does not reclaim. */
  function Kept(reclaims: bool, log: seq<MessageEnvelope>, failing: set<ConversationId>): set<ConversationId> {
    if reclaims then failing else Set(ConversationIds(log))
  }

  method PopulateCache(
    log: seq<MessageEnvelope>, s: Stores, cache: DerivedOutputCache, version: string, failing: set<ConversationId>)
    returns (derivations: seq<ConversationDerivation>)
    modifies cache
    ensures cache.rows == Populated(old(cache.rows), s, log, version, Kept(cache.reclaims, log, failing))
    ensures derivations == Derivations(s, log, ConversationIds(log))
  {
    var order, groups := GroupMessages(log);
    derivations := [];
    ghost var kept := Kept(cache.reclaims, log, failing);
    for i := 0 to |order|
      invariant cache.rows == PopulatedRows(old(cache.rows), s, log, version, order[..i], kept)
      invariant derivations == Derivations(s, log, order[..i])
    {
      hide ConversationIds, DerivationFrom, MessagesFor, Content;
      PrefixStep(order, i);
      var c := order[i];
      assert c in Set(order);
      var messages := groups[c];
      var derivation := DerivationFrom(s, c, messages);
      match derivation {
        case None =>
        case Some(d) =>
          var content := ContentHashOf(messages);
          cache.Put(CacheKey(version, c, content), d);
          cache.ReclaimSuperseded(CacheKey(version, c, content), c in failing);
          derivations := derivations + [d];
      }
    }
    WholePrefix(order);
  }

  // ---------- what populating does, row by row ----------

  /** What the cache answers at `k` after the conversations `cs` were populated. */
  function RowAfter(
    rows: Rows, s: Stores, log: seq<MessageEnvelope>, version: string, cs: seq<ConversationId>,
    kept: set<ConversationId>, k: CacheKey): Option<ConversationDerivation>
  {
    var before := Find(rows, k);
    if k.conversation !in cs then before
    else
      var d := DerivationFrom(s, k.conversation, MessagesFor(log, k.conversation));
      if d.None? then before
      else if k == KeyFor(version, log, k.conversation) then d
      else if k.conversation in kept then before
      else None
  }

  /** Populating a conversation touches its own rows only, and leaves its current row in place. */
  lemma {:induction false} PopulatedRow(
    rows: Rows, s: Stores, log: seq<MessageEnvelope>, version: string, cs: seq<ConversationId>,
    kept: set<ConversationId>, k: CacheKey)
    requires Distinct(cs)
    ensures Find(PopulatedRows(rows, s, log, version, cs, kept), k) == RowAfter(rows, s, log, version, cs, kept, k)
  {
    hide MessagesFor, Content, DerivationFrom;
    if cs != [] {
      Snoc(cs);
      PopulatedRow(rows, s, log, version, Init(cs), kept, k);
      assert Last(cs) !in Init(cs);
    }
  }

  /** A reclaim changes neither the kept key's row nor any row of another conversation. */
  lemma PruneKeeps(rows: Rows, keep: CacheKey, k: CacheKey)
    ensures Find(Prune(rows, keep), k) ==
            if k.conversation == keep.conversation && k != keep then None else Find(rows, k)
  {
  }

  // ---------- reclaim over whole runs ----------

  /**
   * A reclaim for one log and version changes a later read of the conversation exactly when the row read
   * was there and belongs to another version, or the conversation's text has changed in between.
   */
  lemma ReclaimChangesReadExactlyWhen(
    rows: Rows, version: string, log: seq<MessageEnvelope>, later: string, now: seq<MessageEnvelope>, c: ConversationId)
    ensures var kept, read := KeyFor(version, log, c), KeyFor(later, now, c);
            Find(Prune(rows, kept), read) != Find(rows, read) <==>
            read in rows && (later != version || !SameText(MessagesFor(log, c), MessagesFor(now, c)))
  {
    hide Content, MessagesFor, SameText;
    PruneKeeps(rows, KeyFor(version, log, c), KeyFor(later, now, c));
    ContentDecides(MessagesFor(log, c), MessagesFor(now, c));
  }

  /** One populate cycle: any stores, any log, any version. */
  datatype Cycle = Cycle(stores: Stores, log: MessageLog, version: string)

  function RunCycles(rows: Rows, cycles: seq<Cycle>): Rows {
    if cycles == [] then rows
    else
      var c := Last(cycles);
      Populated(RunCycles(rows, Init(cycles)), c.stores, c.log, c.version, {})
  }

  ghost predicate OneRowPerConversation(rows: Rows) {
    forall k, l :: k in rows && l in rows && k.conversation == l.conversation ==> k == l
  }

  lemma PopulateKeepsOneRow(rows: Rows, cycle: Cycle)
    requires OneRowPerConversation(rows)
    ensures OneRowPerConversation(Populated(rows, cycle.stores, cycle.log, cycle.version, {}))
  {
    hide MessagesFor, Content, DerivationFrom;
    var now := Populated(rows, cycle.stores, cycle.log, cycle.version, {});
    var cs := ConversationIds(cycle.log);
    ConversationIdsMembers(cycle.log);
    forall k, l | k in now && l in now && k.conversation == l.conversation ensures k == l {
      PopulatedRow(rows, cycle.stores, cycle.log, cycle.version, cs, {}, k);
      PopulatedRow(rows, cycle.stores, cycle.log, cycle.version, cs, {}, l);
    }
  }

  /**
   * Over any run of populate cycles, at any versions, a durable cache that starts empty holds at most
   * one row per conversation.
   */
  lemma {:induction false} ReclaimBoundsRows(cycles: seq<Cycle>)
    ensures OneRowPerConversation(RunCycles(map[], cycles))
  {
    if cycles != [] {
      ReclaimBoundsRows(Init(cycles));
      PopulateKeepsOneRow(RunCycles(map[], Init(cycles)), Last(cycles));
    }
  }

  /** Each conversation the last cycle derived has exactly its current key, with that derivation. */
  lemma LastCycleIsCurrent(cycles: seq<Cycle>, c: ConversationId)
    requires cycles != []
    requires c in ConversationIds(Last(cycles).log)
    requires DerivationFrom(Last(cycles).stores, c, MessagesFor(Last(cycles).log, c)).Some?
    ensures var rows := RunCycles(map[], cycles);
            var current := KeyFor(Last(cycles).version, Last(cycles).log, c);
            && Find(rows, current) == DerivationFrom(Last(cycles).stores, c, MessagesFor(Last(cycles).log, c))
            && forall k :: k in rows && k.conversation == c ==> k == current
  {
    hide MessagesFor, Content, DerivationFrom;
    var last := Last(cycles);
    ConversationIdsMembers(last.log);
    PopulatedRow(RunCycles(map[], Init(cycles)), last.stores, last.log, last.version,
                 ConversationIds(last.log), {}, KeyFor(last.version, last.log, c));
    ReclaimBoundsRows(cycles);
  }
}
