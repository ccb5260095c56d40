/** Printed identities: composed with separators, and which component restrictions make them decode. */
module Identities {
  import opened Domain
  import opened Log
  import opened Sequences
  import opened Wrappers

  // ---------- splitting at a separator ----------

  predicate Free(c: char, s: string) {
    forall i :: 0 <= i < |s| ==> s[i] != c
  }

  /** `a`, the separator, `x`. */
  function Join(a: string, c: char, x: string): string {
    a + [c] + x
  }

  /** `b` goes on, past a separator, where `a` stops; `x` starts with what `b` has more. */
  predicate Shifted(a: string, x: string, b: string, y: string, c: char) {
    && |a| < |b|
    && b[..|a|] == a && b[|a|] == c
    && x == Join(b[|a| + 1..], c, y)
  }

  /** The two pairs are the same, or differ only in which separator is taken for the joint. */
  predicate Alike(a: string, x: string, b: string, y: string, c: char) {
    || (a == b && x == y)
    || Shifted(a, x, b, y, c)
    || Shifted(b, y, a, x, c)
  }

  /** Exactly when two joins print the same. */
  lemma JoinsEqualExactlyWhen(a: string, c: char, x: string, b: string, y: string)
    ensures Join(a, c, x) == Join(b, c, y) <==> Alike(a, x, b, y, c)
  {
    if Join(a, c, x) == Join(b, c, y) {
      if |a| < |b| {
        JoinShifts(a, c, x, b, y);
      } else if |b| < |a| {
        JoinShifts(b, c, y, a, x);
      } else {
        assert a == Join(a, c, x)[..|a|] && b == Join(b, c, y)[..|b|];
        assert x == Join(a, c, x)[|a| + 1..] && y == Join(b, c, y)[|b| + 1..];
      }
    }
    if Shifted(a, x, b, y, c) {
      ShiftJoins(a, c, x, b, y);
    }
    if Shifted(b, y, a, x, c) {
      ShiftJoins(b, c, y, a, x);
    }
  }

  lemma JoinShifts(a: string, c: char, x: string, b: string, y: string)
    requires Join(a, c, x) == Join(b, c, y) && |a| < |b|
    ensures Shifted(a, x, b, y, c)
  {
    var s, t := a + [c] + x, b + [c] + y;
    assert s[..|a|] == a && t[..|a|] == b[..|a|];
    assert s[|a|] == c && t[|a|] == b[|a|];
    assert s[|a| + 1..] == x && t[|a| + 1..] == b[|a| + 1..] + [c] + y;
  }

  lemma ShiftJoins(a: string, c: char, x: string, b: string, y: string)
    requires Shifted(a, x, b, y, c)
    ensures Join(a, c, x) == Join(b, c, y)
  {
    assert b == a + [c] + b[|a| + 1..];
  }

  /** A prefix without the separator is recovered from what was printed. */
  lemma FreePrefix(c: char, a: string, x: string, b: string, y: string)
    requires Free(c, a) && Free(c, b)
    ensures Alike(a, x, b, y, c) <==> a == b && x == y
  {
  }

  lemma JoinHasSeparator(a: string, c: char, x: string)
    ensures !Free(c, Join(a, c, x))
  {
    assert Join(a, c, x)[|a|] == c;
  }

  /** A suffix without the separator is recovered from what was printed. */
  lemma FreeSuffix(c: char, a: string, x: string, b: string, y: string)
    requires Free(c, x) && Free(c, y)
    ensures Alike(a, x, b, y, c) <==> a == b && x == y
  {
    if |a| < |b| {
      JoinHasSeparator(b[|a| + 1..], c, y);
    } else if |b| < |a| {
      JoinHasSeparator(a[|b| + 1..], c, x);
    }
  }

  // ---------- derivation versions ----------

  const DERIVATION_SCHEMA_VERSION := "1"

  function DerivationVersion(strategy: string, projector: string): string {
    Join(DERIVATION_SCHEMA_VERSION, ':', Join(strategy, ':', projector))
  }

  /** Exactly when two derivation versions print the same. */
  lemma DerivationVersionsEqualExactlyWhen(s: string, p: string, t: string, q: string)
    ensures DerivationVersion(s, p) == DerivationVersion(t, q) <==> Alike(s, p, t, q, ':')
  {
    JoinsEqualExactlyWhen(DERIVATION_SCHEMA_VERSION, ':', Join(s, ':', p), DERIVATION_SCHEMA_VERSION, Join(t, ':', q));
    JoinsEqualExactlyWhen(s, ':', p, t, q);
  }

  /** Derivation versions decode when strategy ids are free of ':'; the projector tag may contain it. */
  lemma DerivationVersionDecodes(s: string, p: string, t: string, q: string)
    requires Free(':', s) && Free(':', t)
    ensures DerivationVersion(s, p) == DerivationVersion(t, q) <==> s == t && p == q
  {
    DerivationVersionsEqualExactlyWhen(s, p, t, q);
    FreePrefix(':', s, p, t, q);
  }

  /** With a ':' in a strategy id, two different pairs print alike. */
  lemma DerivationVersionsCollide()
    ensures DerivationVersion("a:b", "c") == DerivationVersion("a", "b:c")
  {
    assert Join("a:b", ':', "c") == Join("a", ':', "b:c");
  }

  // ---------- projector tags ----------

  function VersionTag(provider: string, model: string, promptVersion: string): string {
    Join(Join(provider, ':', model), ':', promptVersion)
  }

  function CacheVersion(provider: string, model: string, promptVersion: string, fingerprint: string): string {
    Join(VersionTag(provider, model, promptVersion), ':', fingerprint)
  }

  /** Exactly when two version tags print the same. */
  lemma VersionTagsEqualExactlyWhen(p: string, m: string, v: string, q: string, n: string, w: string)
    ensures VersionTag(p, m, v) == VersionTag(q, n, w) <==>
            || (Alike(p, m, q, n, ':') && v == w)
            || Shifted(Join(p, ':', m), v, Join(q, ':', n), w, ':')
            || Shifted(Join(q, ':', n), w, Join(p, ':', m), v, ':')
  {
    JoinsEqualExactlyWhen(Join(p, ':', m), ':', v, Join(q, ':', n), w);
    JoinsEqualExactlyWhen(p, ':', m, q, n);
  }

  /** Exactly when two cache versions print the same. */
  lemma CacheVersionsEqualExactlyWhen(
    p: string, m: string, v: string, f: string, q: string, n: string, w: string, g: string)
    ensures CacheVersion(p, m, v, f) == CacheVersion(q, n, w, g) <==>
            || (VersionTag(p, m, v) == VersionTag(q, n, w) && f == g)
            || Shifted(VersionTag(p, m, v), f, VersionTag(q, n, w), g, ':')
            || Shifted(VersionTag(q, n, w), g, VersionTag(p, m, v), f, ':')
  {
    JoinsEqualExactlyWhen(VersionTag(p, m, v), ':', f, VersionTag(q, n, w), g);
  }

  lemma VersionTagDecodes(p: string, m: string, v: string, q: string, n: string, w: string)
    requires Free(':', p) && Free(':', q) && Free(':', v) && Free(':', w)
    ensures VersionTag(p, m, v) == VersionTag(q, n, w) <==> p == q && m == n && v == w
  {
    hide Shifted, Free;
    VersionTagsEqualExactlyWhen(p, m, v, q, n, w);
    FreeSuffix(':', Join(p, ':', m), v, Join(q, ':', n), w);
    JoinsEqualExactlyWhen(p, ':', m, q, n);
    FreePrefix(':', p, m, q, n);
  }

  /**
   * The cache version decodes when provider tags, prompt versions and fingerprints are free of ':',
   * so any change of provider, model, prompt version or prompt text misses; models may contain ':'.
   */
  lemma CacheVersionDecodes(
    p: string, m: string, v: string, f: string, q: string, n: string, w: string, g: string)
    requires Free(':', p) && Free(':', q) && Free(':', v) && Free(':', w) && Free(':', f) && Free(':', g)
    ensures CacheVersion(p, m, v, f) == CacheVersion(q, n, w, g) <==> p == q && m == n && v == w && f == g
  {
    hide Shifted, Free;
    CacheVersionsEqualExactlyWhen(p, m, v, f, q, n, w, g);
    FreeSuffix(':', VersionTag(p, m, v), f, VersionTag(q, n, w), g);
    VersionTagDecodes(p, m, v, q, n, w);
  }

  /** With a ':' in the prompt version, two different configurations print alike. */
  lemma VersionTagsCollide()
    ensures VersionTag("openai", "m", "a:b") == VersionTag("openai", "m:a", "b")
  {
    assert Join(Join("openai", ':', "m"), ':', "a:b") == "openai:m:a:b";
    assert Join(Join("openai", ':', "m:a"), ':', "b") == "openai:m:a:b";
  }

  // ---------- decimal numbers ----------

  function Digit(n: nat): char
    requires n < 10
  {
    "0123456789"[n]
  }

  /** A number in decimal, without leading zeros. */
  function Decimal(n: nat): (s: string)
    ensures s != []
  {
    if n < 10 then [Digit(n)] else Decimal(n / 10) + [Digit(n % 10)]
  }

  lemma {:induction false} DecimalDecodes(n: nat, m: nat)
    requires Decimal(n) == Decimal(m)
    ensures n == m
    decreases n
  {
    assert Last(Decimal(n)) == Digit(n % 10) && Last(Decimal(m)) == Digit(m % 10);
    assert n % 10 == m % 10;
    if n < 10 || m < 10 {
      assert n >= 10 ==> |Decimal(n)| > 1;
      assert m >= 10 ==> |Decimal(m)| > 1;
    } else {
      assert Init(Decimal(n)) == Decimal(n / 10) && Init(Decimal(m)) == Decimal(m / 10);
      DecimalDecodes(n / 10, m / 10);
    }
  }

  /** The number that digits print. */
  function ReadDigits(s: string): int {
    if s == [] then 0 else ReadDigits(Init(s)) * 10 + (Last(s) as int - '0' as int)
  }

  lemma DigitReads(n: nat)
    requires n < 10
    ensures Digit(n) as int - '0' as int == n
  {
  }

  /** A printed number reads back, and has no leading zero. */
  lemma {:induction false} DecimalReads(n: nat)
    ensures ReadDigits(Decimal(n)) == n
    ensures n > 0 ==> Decimal(n)[0] != '0'
  {
    if n < 10 {
      DigitReads(n);
      assert Init([Digit(n)]) == [] && Last([Digit(n)]) == Digit(n);
    } else {
      DecimalReads(n / 10);
      DigitReads(n % 10);
      var front := Decimal(n / 10);
      assert Init(front + [Digit(n % 10)]) == front && Last(front + [Digit(n % 10)]) == Digit(n % 10);
    }
  }

  lemma {:induction false} DecimalHasNoHash(n: nat)
    ensures Free('#', Decimal(n))
  {
    if n >= 10 {
      DecimalHasNoHash(n / 10);
    }
  }

  // ---------- GitHub items ----------

  datatype Repo = Repo(owner: string, name: string)

  datatype ItemKind = Issue | PullRequest | Comment

  datatype GitHubItem = GitHubItem(
    kind: ItemKind,
    repo: Repo,
    number: nat,
    id: string,
    authorLogin: string,
    title: Option<string>,
    body: string)

  function Tag(kind: ItemKind): string {
    match kind
    case Issue => "issue"
    case PullRequest => "pull-request"
    case Comment => "comment"
  }

  function ItemMessageId(item: GitHubItem): MessageId {
    "github:" + Join(item.repo.owner, '/', Join(item.repo.name, ':', Join(Tag(item.kind), ':', item.id)))
  }

  function ItemConversationId(item: GitHubItem): ConversationId {
    "github:" + Join(Join(item.repo.owner, '/', item.repo.name), '#', Decimal(item.number))
  }

  function ItemBody(item: GitHubItem): string {
    if item.kind == Comment || item.title.None? then item.body
    else item.title.value + "\n\n" + item.body
  }

  function ToMessage(item: GitHubItem): MessageEnvelope {
    MessageEnvelope(
      ItemMessageId(item),
      Source.GitHub,
      Author(item.authorLogin, item.authorLogin),
      Conversation(ItemConversationId(item), None),
      ItemBody(item))
  }

  /** What each item becomes: a comment keeps its body, a titled issue or pull request is led by its title. */
  lemma ItemMessageSays(item: GitHubItem)
    ensures var m := ToMessage(item);
            && m.id == ItemMessageId(item) && m.source == Source.GitHub
            && m.author.id == item.authorLogin && m.author.displayName == item.authorLogin
            && m.conversation.id == ItemConversationId(item) && m.conversation.thread.None?
            && (item.kind == Comment ==> m.body == item.body)
            && (item.kind != Comment ==>
                  match item.title
                  case None => m.body == item.body
                  case Some(title) => m.body == title + "\n\n" + item.body)
  {
  }

  /** The printed forms, character by character. */
  lemma PrintedForms(item: GitHubItem)
    ensures ItemMessageId(item)
         == "github:" + item.repo.owner + "/" + item.repo.name + ":"
            + (match item.kind case Issue => "issue" case PullRequest => "pull-request" case Comment => "comment")
            + ":" + item.id
    ensures ItemConversationId(item)
         == "github:" + item.repo.owner + "/" + item.repo.name + "#" + Decimal(item.number)
  {
    var tag := Tag(item.kind);
    assert Join(item.repo.owner, '/', Join(item.repo.name, ':', Join(tag, ':', item.id)))
        == item.repo.owner + "/" + item.repo.name + ":" + tag + ":" + item.id;
  }

  lemma PrintedVersions(strategy: string, provider: string, model: string, prompt: string, fingerprint: string)
    ensures CacheVersion(provider, model, prompt, fingerprint)
         == provider + ":" + model + ":" + prompt + ":" + fingerprint
    ensures DerivationVersion(strategy, model) == "1:" + strategy + ":" + model
  {
    assert Join("1", ':', Join(strategy, ':', model)) == "1:" + strategy + ":" + model;
  }

  predicate Printable(repo: Repo) {
    Free('/', repo.owner) && Free(':', repo.name)
  }

  lemma TagsDiffer(k: ItemKind, l: ItemKind)
    ensures Free(':', Tag(k))
    ensures Tag(k) == Tag(l) <==> k == l
  {
    assert |Tag(ItemKind.Issue)| == 5 && |Tag(PullRequest)| == 12 && |Tag(Comment)| == 7;
  }

  lemma SkipGitHub(x: string, y: string)
    requires "github:" + x == "github:" + y
    ensures x == y
  {
    assert ("github:" + x)[7..] == x && ("github:" + y)[7..] == y;
  }

  /** What follows the owner: name, kind and item id. */
  function ItemTail(item: GitHubItem): string {
    Join(item.repo.name, ':', Join(Tag(item.kind), ':', item.id))
  }

  /** Exactly when two items print the same message id. */
  lemma ItemMessageIdsEqualExactlyWhen(i: GitHubItem, j: GitHubItem)
    ensures ItemMessageId(i) == ItemMessageId(j) <==>
            || (i.repo.owner == j.repo.owner
                && Alike(i.repo.name, Join(Tag(i.kind), ':', i.id), j.repo.name, Join(Tag(j.kind), ':', j.id), ':'))
            || Shifted(i.repo.owner, ItemTail(i), j.repo.owner, ItemTail(j), '/')
            || Shifted(j.repo.owner, ItemTail(j), i.repo.owner, ItemTail(i), '/')
  {
    hide Join, Shifted, Tag;
    if ItemMessageId(i) == ItemMessageId(j) {
      SkipGitHub(Join(i.repo.owner, '/', ItemTail(i)), Join(j.repo.owner, '/', ItemTail(j)));
    }
    JoinsEqualExactlyWhen(i.repo.owner, '/', ItemTail(i), j.repo.owner, ItemTail(j));
    JoinsEqualExactlyWhen(i.repo.name, ':', Join(Tag(i.kind), ':', i.id), j.repo.name, Join(Tag(j.kind), ':', j.id));
  }

  /** A message id determines repository, kind and item id, and nothing else goes into it. */
  lemma ItemMessageIdDecodes(i: GitHubItem, j: GitHubItem)
    requires Printable(i.repo) && Printable(j.repo)
    ensures ItemMessageId(i) == ItemMessageId(j) <==> i.repo == j.repo && i.kind == j.kind && i.id == j.id
  {
    hide Join, Tag, Free, Shifted;
    ItemMessageIdsEqualExactlyWhen(i, j);
    FreePrefix('/', i.repo.owner, ItemTail(i), j.repo.owner, ItemTail(j));
    JoinsEqualExactlyWhen(i.repo.name, ':', Join(Tag(i.kind), ':', i.id), j.repo.name, Join(Tag(j.kind), ':', j.id));
    FreePrefix(':', i.repo.name, Join(Tag(i.kind), ':', i.id), j.repo.name, Join(Tag(j.kind), ':', j.id));
    TagsDiffer(i.kind, j.kind);
    TagsDiffer(j.kind, i.kind);
    JoinsEqualExactlyWhen(Tag(i.kind), ':', i.id, Tag(j.kind), j.id);
    FreePrefix(':', Tag(i.kind), i.id, Tag(j.kind), j.id);
  }

  /** Exactly when two items share a conversation. */
  lemma ItemConversationIdsEqualExactlyWhen(i: GitHubItem, j: GitHubItem)
    ensures ItemConversationId(i) == ItemConversationId(j) <==>
            i.number == j.number && Alike(i.repo.owner, i.repo.name, j.repo.owner, j.repo.name, '/')
  {
    hide Join, Decimal, Free, Shifted;
    var x, y := Join(i.repo.owner, '/', i.repo.name), Join(j.repo.owner, '/', j.repo.name);
    if ItemConversationId(i) == ItemConversationId(j) {
      SkipGitHub(Join(x, '#', Decimal(i.number)), Join(y, '#', Decimal(j.number)));
    }
    JoinsEqualExactlyWhen(x, '#', Decimal(i.number), y, Decimal(j.number));
    DecimalHasNoHash(i.number);
    DecimalHasNoHash(j.number);
    FreeSuffix('#', x, Decimal(i.number), y, Decimal(j.number));
    JoinsEqualExactlyWhen(i.repo.owner, '/', i.repo.name, j.repo.owner, j.repo.name);
    if Decimal(i.number) == Decimal(j.number) {
      DecimalDecodes(i.number, j.number);
    }
  }

  /** Items share a conversation exactly when they share repository and issue number, for '/'-free owners. */
  lemma ItemConversationIdDecodes(i: GitHubItem, j: GitHubItem)
    requires Free('/', i.repo.owner) && Free('/', j.repo.owner)
    ensures ItemConversationId(i) == ItemConversationId(j) <==> i.repo == j.repo && i.number == j.number
  {
    hide Free, Shifted;
    ItemConversationIdsEqualExactlyWhen(i, j);
    FreePrefix('/', i.repo.owner, i.repo.name, j.repo.owner, j.repo.name);
  }

  // ---------- ingestion ----------

  function Messages(items: seq<GitHubItem>): (r: seq<MessageEnvelope>)
    ensures |r| == |items|
    ensures forall i :: 0 <= i < |items| ==> r[i] == ToMessage(items[i])
  {
    if items == [] then [] else Messages(Init(items)) + [ToMessage(Last(items))]
  }

  /** Map each fetched item and append it; returns the ids in fetch order. */
  method IngestItems(items: seq<GitHubItem>, store: InMemoryMessageStore) returns (ids: seq<MessageId>)
    requires store.Valid()
    modifies store
    ensures store.Valid()
    ensures store.Contents() == AppendedAll(old(store.Contents()), Messages(items))
    ensures ids == Ids(Messages(items))
  {
    ids := [];
    for i := 0 to |items|
      invariant store.Valid()
      invariant store.Contents() == AppendedAll(old(store.Contents()), Messages(items[..i]))
      invariant ids == Ids(Messages(items[..i]))
    {
      hide ToMessage, Appended, AppendedAll, Messages, Ids;
      IngestStep(old(store.Contents()), items, i);
      var message := ToMessage(items[i]);
      store.Append(message);
      ids := ids + [message.id];
    }
    WholePrefix(items);
  }

  lemma IngestStep(log: MessageLog, items: seq<GitHubItem>, i: nat)
    requires i < |items|
    ensures Messages(items[..i + 1]) == Messages(items[..i]) + [ToMessage(items[i])]
    ensures Ids(Messages(items[..i + 1])) == Ids(Messages(items[..i])) + [ToMessage(items[i]).id]
    ensures AppendedAll(log, Messages(items[..i + 1]))
         == Appended(AppendedAll(log, Messages(items[..i])), ToMessage(items[i]))
  {
    hide ToMessage, Appended;
    PrefixStep(items, i);
    var ms, m := Messages(items[..i]), ToMessage(items[i]);
    assert Init(ms + [m]) == ms && Last(ms + [m]) == m;
  }

  /** Appending any messages leaves the earlier ids in place and one message per id. */
  lemma {:induction false} AppendedAllIds(log: MessageLog, ms: seq<MessageEnvelope>)
    ensures Ids(log) <= Ids(AppendedAll(log, ms))
    ensures forall id :: id in Ids(AppendedAll(log, ms)) <==> id in Ids(log) || exists m :: m in ms && m.id == id
  {
    if ms != [] {
      Snoc(ms);
      AppendedAllIds(log, Init(ms));
      AppendedIds(AppendedAll(log, Init(ms)), Last(ms));
    }
  }

  lemma AppendedIds(log: MessageLog, m: MessageEnvelope)
    ensures forall id :: id in Ids(Appended(log, m)) <==> id in Ids(log) || id == m.id
  {
    var now := Appended(log, m);
    forall id ensures id in Ids(now) <==> id in Ids(log) || id == m.id {
      if id in Ids(now) {
        var i :| 0 <= i < |now| && Ids(now)[i] == id;
        assert now[i] in now;
        if now[i] != m {
          var j :| 0 <= j < |log| && log[j] == now[i];
          assert Ids(log)[j] == id;
        }
      }
      if id in Ids(log) {
        var i :| 0 <= i < |log| && Ids(log)[i] == id;
        assert Ids(now)[i] == id;
      }
      if id == m.id {
        var i :| 0 <= i < |now| && now[i] == m;
        assert Ids(now)[i] == id;
      }
    }
  }

  /** The item's own identity: repository, kind and id. */
  datatype ItemIdentity = ItemIdentity(repo: Repo, kind: ItemKind, id: string)

  function IdentityOf(item: GitHubItem): ItemIdentity {
    ItemIdentity(item.repo, item.kind, item.id)
  }

  function ItemsRepeated(items: seq<GitHubItem>, times: nat): seq<GitHubItem> {
    if times == 0 then [] else ItemsRepeated(items, times - 1) + items
  }

  lemma {:induction false} RepeatedMembers(items: seq<GitHubItem>, times: nat, i: GitHubItem)
    ensures i in ItemsRepeated(items, times) <==> times > 0 && i in items
  {
    if times > 0 {
      RepeatedMembers(items, times - 1, i);
    }
  }

  function ItemIds(items: seq<GitHubItem>): set<MessageId> {
    set i | i in items :: ItemMessageId(i)
  }

  function ItemIdentities(items: seq<GitHubItem>): set<ItemIdentity> {
    set i | i in items :: IdentityOf(i)
  }

  /** Items of the list that print the same message id are the same item. */
  ghost predicate NoneCollide(items: seq<GitHubItem>) {
    forall i, j :: i in items && j in items && ItemMessageId(i) == ItemMessageId(j) ==> IdentityOf(i) == IdentityOf(j)
  }

  lemma PrintableNeverCollide(items: seq<GitHubItem>)
    requires forall i :: i in items ==> Printable(i.repo)
    ensures NoneCollide(items)
  {
    hide ItemMessageId, Printable;
    forall i, j | i in items && j in items && ItemMessageId(i) == ItemMessageId(j)
      ensures IdentityOf(i) == IdentityOf(j) {
      ItemMessageIdDecodes(i, j);
    }
  }

  lemma IdentityPrints(i: GitHubItem, j: GitHubItem)
    requires IdentityOf(i) == IdentityOf(j)
    ensures ItemMessageId(i) == ItemMessageId(j)
  {
  }

  lemma OneMoreItem(items: seq<GitHubItem>)
    requires items != []
    ensures ItemIds(items) == ItemIds(Init(items)) + {ItemMessageId(Last(items))}
    ensures ItemIdentities(items) == ItemIdentities(Init(items)) + {IdentityOf(Last(items))}
  {
    hide ItemMessageId, IdentityOf;
    Snoc(items);
  }

  /** A repeat by identity is one by id; the converse holds exactly when the last item collides with none. */
  lemma RepeatIsRepeat(items: seq<GitHubItem>)
    requires items != []
    ensures IdentityOf(Last(items)) in ItemIdentities(Init(items)) ==>
              ItemMessageId(Last(items)) in ItemIds(Init(items))
    ensures NoneCollide(items) ==> NoneCollide(Init(items))
    ensures NoneCollide(Init(items)) ==>
              (NoneCollide(items) <==>
               (ItemMessageId(Last(items)) in ItemIds(Init(items)) ==>
                  IdentityOf(Last(items)) in ItemIdentities(Init(items))))
  {
    hide ItemMessageId, IdentityOf;
    Snoc(items);
    var last := Last(items);
    forall i | i in items && IdentityOf(i) == IdentityOf(last) ensures ItemMessageId(i) == ItemMessageId(last) {
      IdentityPrints(i, last);
    }
  }

  lemma OneMore<T>(s: set<T>, x: T)
    ensures |s + {x}| == |s| + if x in s then 0 else 1
  {
    if x in s {
      assert s + {x} == s;
    }
  }

  /** Never more message ids than identities, and as many exactly when no two items collide. */
  lemma {:induction false} AsManyIds(items: seq<GitHubItem>)
    ensures |ItemIds(items)| <= |ItemIdentities(items)|
    ensures |ItemIds(items)| == |ItemIdentities(items)| <==> NoneCollide(items)
  {
    if items != [] {
      RepeatIsRepeat(items);
      OneMoreItem(items);
      OneMore(ItemIds(Init(items)), ItemMessageId(Last(items)));
      OneMore(ItemIdentities(Init(items)), IdentityOf(Last(items)));
      hide *;
      AsManyIds(Init(items));
    }
  }

  lemma {:induction false} DistinctSetSize<T>(s: seq<T>)
    requires Distinct(s)
    ensures |Set(s)| == |s|
  {
    if s == [] {
      assert Set(s) == {};
    } else {
      DistinctSetSize(Init(s));
      Snoc(s);
      assert Set(s) == Set(Init(s)) + {Last(s)};
      assert Last(s) !in Init(s);
    }
  }

  lemma {:induction false} RepeatedIds(items: seq<GitHubItem>, times: nat)
    requires times > 0
    ensures ItemIds(ItemsRepeated(items, times)) == ItemIds(items)
  {
    hide ItemMessageId;
    forall i ensures i in ItemsRepeated(items, times) <==> i in items {
      RepeatedMembers(items, times, i);
    }
  }

  lemma MessageIds(items: seq<GitHubItem>, id: MessageId)
    ensures (exists m :: m in Messages(items) && m.id == id) <==> id in ItemIds(items)
  {
    hide ItemMessageId;
    if m :| m in Messages(items) && m.id == id {
      var k :| 0 <= k < |items| && Messages(items)[k] == m;
      assert items[k] in items;
    }
    if i :| i in items && ItemMessageId(i) == id {
      var k :| 0 <= k < |items| && items[k] == i;
      assert Messages(items)[k].id == id;
    }
  }

  /**
   * Ingesting any item list any number of times into a fresh log leaves exactly one message per distinct
   * (repository, kind, id) if and only if no two different items of the list print the same message id;
   * otherwise it leaves fewer. With printable repositories none do.
   */
  lemma ReingestLeavesOnePerItem(items: seq<GitHubItem>, times: nat)
    requires times > 0
    ensures var log := AppendedAll([], Messages(ItemsRepeated(items, times)));
            && Set(Ids(log)) == ItemIds(items)
            && |log| <= |ItemIdentities(items)|
            && (|log| == |ItemIdentities(items)| <==> NoneCollide(items))
    ensures (forall i :: i in items ==> Printable(i.repo)) ==> NoneCollide(items)
  {
    hide ItemMessageId, Messages, AppendedAll, NoneCollide, Printable;
    var all := ItemsRepeated(items, times);
    var log := AppendedAll([], Messages(all));
    AppendedAllIds([], Messages(all));
    RepeatedIds(items, times);
    forall id ensures id in Set(Ids(log)) <==> id in ItemIds(items) {
      MessageIds(all, id);
    }
    DistinctSetSize(Ids(log));
    AsManyIds(items);
    if forall i :: i in items ==> Printable(i.repo) {
      PrintableNeverCollide(items);
    }
  }

  /** Without the restriction on names, two different items print the same message id. */
  lemma ItemMessageIdsCollide()
    ensures var i := GitHubItem(ItemKind.Issue, Repo("o", "n"), 1, "comment:7", "u", None, "");
            var j := GitHubItem(Comment, Repo("o", "n:issue"), 1, "7", "u", None, "");
            ItemMessageId(i) == ItemMessageId(j) && IdentityOf(i) != IdentityOf(j)
  {
    var i := GitHubItem(ItemKind.Issue, Repo("o", "n"), 1, "comment:7", "u", None, "");
    var j := GitHubItem(Comment, Repo("o", "n:issue"), 1, "7", "u", None, "");
    assert Join("issue", ':', "comment:7") == "issue:comment:7" && Join("comment", ':', "7") == "comment:7";
    assert Join("n", ':', "issue:comment:7") == "n:issue:comment:7" == Join("n:issue", ':', "comment:7");
  }
}
