/** The single-pass loops over the log, and that they equal a re-scan per conversation. */
module Grouping {
  import opened Domain
  import opened Log
  import opened Pipeline
  import opened Sequences
  import opened Sorting

  // ---------- what a group is ----------

  datatype Group<T> = Group(conversation: ConversationId, members: seq<T>)

  function IdGroups(log: seq<MessageEnvelope>, cs: seq<ConversationId>): (r: seq<Group<MessageId>>)
    ensures |r| == |cs|
    ensures forall i :: 0 <= i < |cs| ==> r[i] == Group(cs[i], IdsIn(log, cs[i]))
  {
    if cs == [] then [] else IdGroups(log, Init(cs)) + [Group(Last(cs), IdsIn(log, Last(cs)))]
  }

  function Groups(log: seq<MessageEnvelope>, cs: seq<ConversationId>): (r: seq<Group<MessageEnvelope>>)
    ensures |r| == |cs|
    ensures forall i :: 0 <= i < |cs| ==> r[i] == Group(cs[i], MessagesFor(log, cs[i]))
  {
    if cs == [] then [] else Groups(log, Init(cs)) + [Group(Last(cs), MessagesFor(log, Last(cs)))]
  }

  // ---------- the loops ----------

  lemma MessagesForStep(log: seq<MessageEnvelope>, i: nat, c: ConversationId)
    requires i < |log|
    ensures MessagesFor(log[..i + 1], c)
         == MessagesFor(log[..i], c) + if log[i].conversation.id == c then [log[i]] else []
    ensures IdsIn(log[..i + 1], c)
         == IdsIn(log[..i], c) + if log[i].conversation.id == c then [log[i].id] else []
  {
    PrefixStep(log, i);
  }

  lemma {:induction false} MessagesForAbsent(log: seq<MessageEnvelope>, c: ConversationId)
    requires c !in ConversationIds(log)
    ensures MessagesFor(log, c) == []
  {
    MessagesForMembers(log, c);
    ConversationIdsMembers(log);
    assert |MessagesFor(log, c)| > 0 ==> MessagesFor(log, c)[0] in MessagesFor(log, c);
  }

  ghost predicate Grouped(
    log: seq<MessageEnvelope>, order: seq<ConversationId>, grouped: map<ConversationId, seq<MessageEnvelope>>) {
    && order == ConversationIds(log)
    && grouped.Keys == Set(order)
    && forall c :: c in grouped ==> grouped[c] == MessagesFor(log, c)
  }

  /** Group the log's messages in one pass: first-seen conversations, append order within each. */
  method GroupMessages(log: seq<MessageEnvelope>)
    returns (order: seq<ConversationId>, grouped: map<ConversationId, seq<MessageEnvelope>>)
    ensures Grouped(log, order, grouped)
  {
    order := [];
    grouped := map[];
    for i := 0 to |log|
      invariant Grouped(log[..i], order, grouped)
    {
      var c := log[i].conversation.id;
      GroupStep(log, i, order, grouped);
      if c !in grouped {
        order := order + [c];
      }
      grouped := grouped[c := (if c in grouped then grouped[c] else []) + [log[i]]];
    }
    WholePrefix(log);
  }

  lemma GroupStep(
    log: seq<MessageEnvelope>, i: nat, order: seq<ConversationId>, grouped: map<ConversationId, seq<MessageEnvelope>>)
    requires i < |log| && Grouped(log[..i], order, grouped)
    ensures var c := log[i].conversation.id;
            Grouped(log[..i + 1],
                    if c in grouped then order else order + [c],
                    grouped[c := (if c in grouped then grouped[c] else []) + [log[i]]])
  {
    hide MessagesFor, ConversationIds, IdsIn;
    var c := log[i].conversation.id;
    PrefixStep(log, i);
    ConversationIdsStep(log[..i + 1]);
    if c !in grouped {
      MessagesForAbsent(log[..i], c);
    }
    var order' := if c in grouped then order else order + [c];
    assert order' == ConversationIds(log[..i + 1]);
    forall d | d in order' ensures d == c || d in grouped {
      assert d in order || d == c;
    }
    forall d | d in grouped || d == c
      ensures MessagesFor(log[..i + 1], d) == MessagesFor(log[..i], d) + if d == c then [log[i]] else [] {
      MessagesForStep(log, i, d);
    }
    assert Set(order') == grouped.Keys + {c};
  }

  /** The grouping of the replay: conversations with their message ids. */
  method GroupByConversation(log: seq<MessageEnvelope>) returns (groups: seq<Group<MessageId>>)
    ensures groups == IdGroups(log, ConversationIds(log))
  {
    var order, grouped := GroupMessages(log);
    groups := [];
    for i := 0 to |order|
      invariant groups == IdGroups(log, order[..i])
    {
      PrefixStep(order, i);
      assert order[i] in Set(order);
      groups := groups + [Group(order[i], Ids(grouped[order[i]]))];
    }
    WholePrefix(order);
  }

  ghost predicate NamesOf(messages: seq<MessageEnvelope>, names: map<AuthorId, string>) {
    && names.Keys == AuthorsOf(messages)
    && forall a :: a in names ==> names[a] == AuthorName(messages, a)
  }

  lemma NoNames()
    ensures NamesOf([], map[])
  {
  }

  lemma NamesStep(messages: seq<MessageEnvelope>, m: MessageEnvelope, names: map<AuthorId, string>)
    requires NamesOf(messages, names)
    ensures NamesOf(messages + [m], names[m.author.id := m.author.displayName])
  {
    var more := messages + [m];
    assert Init(more) == messages && Last(more) == m;
    Snoc(more);
  }

  /** The named authors in ascending order. */
  method ListParticipants(ghost messages: seq<MessageEnvelope>, names: map<AuthorId, string>)
    returns (ps: seq<Participant>)
    requires NamesOf(messages, names)
    ensures ps == ParticipantsFor(messages, Ascending(AuthorsOf(messages)))
  {
    var authors := Ascending(names.Keys);
    ps := [];
    for i := 0 to |authors|
      invariant ps == ParticipantsFor(messages, authors[..i])
    {
      PrefixStep(authors, i);
      assert authors[i] in authors;
      ps := ps + [Participant(authors[i], names[authors[i]])];
    }
    WholePrefix(authors);
  }

  lemma ParticipantsAre(log: seq<MessageEnvelope>, c: ConversationId)
    ensures Participants(log, c) == ParticipantsFor(MessagesFor(log, c), Ascending(AuthorsOf(MessagesFor(log, c))))
  {
  }

  /** Every conversation's authors with their last-seen names. */
  ghost predicate NamedBy(log: seq<MessageEnvelope>, byConversation: map<ConversationId, map<AuthorId, string>>) {
    && byConversation.Keys == Set(ConversationIds(log))
    && forall c :: c in byConversation ==> NamesOf(MessagesFor(log, c), byConversation[c])
  }

  lemma NamedStep(log: seq<MessageEnvelope>, i: nat, byConversation: map<ConversationId, map<AuthorId, string>>)
    requires i < |log| && NamedBy(log[..i], byConversation)
    ensures var c := log[i].conversation.id;
            var names := if c in byConversation then byConversation[c] else map[];
            NamedBy(log[..i + 1], byConversation[c := names[log[i].author.id := log[i].author.displayName]])
  {
    hide MessagesFor, ConversationIds, NamesOf;
    var c := log[i].conversation.id;
    var names := if c in byConversation then byConversation[c] else map[];
    PrefixStep(log, i);
    ConversationIdsStep(log[..i + 1]);
    if c !in byConversation {
      MessagesForAbsent(log[..i], c);
      NoNames();
    }
    NamesStep(MessagesFor(log[..i], c), log[i], names);
    var now := byConversation[c := names[log[i].author.id := log[i].author.displayName]];
    forall d | d in now ensures NamesOf(MessagesFor(log[..i + 1], d), now[d]) {
      MessagesForStep(log, i, d);
      assert MessagesFor(log[..i], d) + [] == MessagesFor(log[..i], d);
    }
  }

  /** Each conversation's distinct authors with their last-seen names, ordered by author id. */
  method ParticipantsByConversation(log: seq<MessageEnvelope>)
    returns (participants: map<ConversationId, seq<Participant>>)
    ensures participants.Keys == Set(ConversationIds(log))
    ensures forall c :: c in participants ==> participants[c] == Participants(log, c)
  {
    var byConversation: map<ConversationId, map<AuthorId, string>> := map[];
    for i := 0 to |log|
      invariant NamedBy(log[..i], byConversation)
    {
      NamedStep(log, i, byConversation);
      var c := log[i].conversation.id;
      var names := if c in byConversation then byConversation[c] else map[];
      byConversation := byConversation[c := names[log[i].author.id := log[i].author.displayName]];
    }
    WholePrefix(log);
    participants := map[];
    var todo := byConversation.Keys;
    while todo != {}
      invariant todo <= byConversation.Keys
      invariant participants.Keys == byConversation.Keys - todo
      invariant forall c :: c in participants ==> participants[c] == Participants(log, c)
      decreases todo
    {
      hide MessagesFor, ConversationIds, Participants, NamesOf;
      var c :| c in todo;
      var ps := ListParticipants(MessagesFor(log, c), byConversation[c]);
      ParticipantsAre(log, c);
      participants := participants[c := ps];
      todo := todo - {c};
    }
  }

  // ---------- groups partition the log ----------

  function Flatten<T>(groups: seq<Group<T>>): seq<T> {
    if groups == [] then [] else Flatten(Init(groups)) + Last(groups).members
  }

  /** A message occurs in the group of its conversation, as often as in the log, and in no other. */
  lemma {:induction false} FlattenCounts(log: seq<MessageEnvelope>, cs: seq<ConversationId>, m: MessageEnvelope)
    requires Distinct(cs)
    ensures multiset(Flatten(Groups(log, cs)))[m] == if m.conversation.id in cs then multiset(log)[m] else 0
  {
    if cs != [] {
      Snoc(cs);
      assert Init(Groups(log, cs)) == Groups(log, Init(cs));
      FlattenCounts(log, Init(cs), m);
      MessagesForCounts(log, Last(cs), m);
      assert Last(cs) !in Init(cs);
    }
  }

  lemma {:induction false} MessagesForCounts(log: seq<MessageEnvelope>, c: ConversationId, m: MessageEnvelope)
    ensures multiset(MessagesFor(log, c))[m] == if m.conversation.id == c then multiset(log)[m] else 0
  {
    if log != [] {
      Snoc(log);
      MessagesForCounts(Init(log), c, m);
    }
  }

  /** Grouping neither loses nor duplicates a message. */
  lemma GroupsPartitionLog(log: seq<MessageEnvelope>)
    ensures multiset(Flatten(Groups(log, ConversationIds(log)))) == multiset(log)
  {
    ConversationIdsMembers(log);
    forall m ensures multiset(Flatten(Groups(log, ConversationIds(log))))[m] == multiset(log)[m] {
      FlattenCounts(log, ConversationIds(log), m);
    }
  }
}
