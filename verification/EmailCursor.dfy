/** The email collector's cursor: which messages a call collects and what it leaves in the source's config. */
module EmailCursor {
  import opened Common
  import opened SeenLists
  import opened Text

  /** The parts of the stored config that Collect reads or writes. */
  datatype Config = Config(
    password: string, fromFilter: string, recipientAlias: string, seenMessageIds: seq<string>, lastSeenUid: int)

  datatype Message = Message(uid: int, messageId: string, subject: string, from: string, to: seq<string>)

  datatype Item = Item(externalId: Option<string>, title: string, author: string, uid: int)

  datatype Error = InvalidEmailConfig | MailboxReadFailed

  datatype Outcome = Collected(items: seq<Item>) | Failed(error: Error)

  // ---------------------------------------------------------------- seen message ids

  function Trimmed(ids: seq<string>): (r: seq<string>)
    ensures |r| == |ids|
  {
    seq(|ids|, i requires 0 <= i < |ids| => TrimSpace(ids[i]))
  }

  /** The seen ids as parseConfig reads them. */
  function Normalized(ids: seq<string>): seq<string> {
    FirstSeen(Trimmed(ids), "")
  }

  lemma TrimmedConcat(a: seq<string>, b: seq<string>)
    ensures Trimmed(a + b) == Trimmed(a) + Trimmed(b)
  {
  }

  /** Exactly the non-blank ids are kept, trimmed. */
  lemma NormalizedKeeps(ids: seq<string>, x: string)
    ensures x in Normalized(ids) <==> x != "" && x in Trimmed(ids)
  {
    ExtendKeeps([], Trimmed(ids), "", |ids|, x);
    assert Trimmed(ids)[..|ids|] == Trimmed(ids);
  }

  /** Free of blanks, of repetitions and of surrounding white space. */
  lemma NormalizedIsClean(ids: seq<string>)
    ensures Clean(Normalized(ids), "") && Trimmed(Normalized(ids)) == Normalized(ids)
  {
    var r := Normalized(ids);
    ExtendClean([], Trimmed(ids), "", |ids|);
    forall k | 0 <= k < |r| ensures Trimmed(r)[k] == r[k] {
      NormalizedKeeps(ids, r[k]);
      var i :| 0 <= i < |ids| && Trimmed(ids)[i] == r[k];
      TrimSpaceIdempotent(ids[i]);
    }
  }

  lemma NormalizedTwice(ids: seq<string>)
    ensures Normalized(Normalized(ids)) == Normalized(ids)
  {
    NormalizedIsClean(ids);
    FirstSeenTwice(Trimmed(ids), "");
  }

  /** Normalizing before appending makes no difference: the new ids just extend the list. */
  lemma {:induction false} NormalizedAbsorbs(a: seq<string>, b: seq<string>)
    ensures Normalized(Normalized(a) + b) == Normalized(a + b)
    ensures Normalized(a + b) == Extend(Normalized(a), Trimmed(b), "", |b|)
  {
    NormalizedIsClean(a);
    TrimmedConcat(Normalized(a), b);
    TrimmedConcat(a, b);
    FirstSeenAbsorbs(Trimmed(a), Trimmed(b), "");
  }

  method NormalizeSeenMessageIDs(ids: seq<string>) returns (normalized: seq<string>)
    ensures normalized == Normalized(ids)
  {
    normalized := [];
    var seen: set<string> := {};
    for i := 0 to |ids|
      invariant normalized == Extend([], Trimmed(ids), "", i)
      invariant forall x :: x in seen <==> x in normalized
    {
      var id := TrimSpace(ids[i]);
      assert id == Trimmed(ids)[i];
      if id == "" || id in seen {
        continue;
      }
      seen := seen + {id};
      normalized := normalized + [id];
    }
  }

  method SeenMessageIDSet(ids: seq<string>) returns (seen: set<string>)
    ensures forall x :: x in seen <==> x in Normalized(ids)
  {
    seen := {};
    for i := 0 to |ids|
      invariant forall x :: x in seen <==> x in Extend([], Trimmed(ids), "", i)
    {
      var id := TrimSpace(ids[i]);
      assert id == Trimmed(ids)[i];
      if id != "" {
        seen := seen + {id};
      }
    }
  }

  // ---------------------------------------------------------------- one call

  predicate ContainsFold(value: string, part: string) {
    Contains(ToLower(value), ToLower(part))
  }

  predicate MatchesFilters(c: Config, m: Message) {
    var from, alias := TrimSpace(c.fromFilter), TrimSpace(c.recipientAlias);
    && (from == "" || ContainsFold(m.from, from))
    && (alias == "" || exists i :: 0 <= i < |m.to| && ContainsFold(m.to[i], alias))
  }

  function Id(m: Message): string { TrimSpace(m.messageId) }

  function ToItem(m: Message): Item {
    Item(if Id(m) == "" then None else Some(Id(m)), TrimSpace(m.subject), TrimSpace(m.from), m.uid)
  }

  predicate Sees(c: Config, id: string) {
    id in Normalized(c.seenMessageIds)
  }

  /** Not seen by an earlier call, inside the filters, and with a subject. */
  predicate Collectable(c: Config, m: Message) {
    !(Id(m) != "" && Sees(c, Id(m))) && MatchesFilters(c, m) && TrimSpace(m.subject) != ""
  }

  function Chosen(c: Config, messages: seq<Message>): seq<Message> {
    if messages == [] then []
    else
      var last := messages[|messages| - 1];
      Chosen(c, messages[..|messages| - 1]) + if Collectable(c, last) then [last] else []
  }

  function Items(messages: seq<Message>): (items: seq<Item>)
    ensures |items| == |messages|
    ensures forall i :: 0 <= i < |items| ==> items[i] == ToItem(messages[i])
  {
    if messages == [] then [] else Items(messages[..|messages| - 1]) + [ToItem(messages[|messages| - 1])]
  }

  function Ids(messages: seq<Message>): seq<string> {
    if messages == [] then []
    else
      var last := Id(messages[|messages| - 1]);
      Ids(messages[..|messages| - 1]) + if last == "" then [] else [last]
  }

  function HighestUid(messages: seq<Message>, low: int): int {
    if messages == [] then low else Max(HighestUid(messages[..|messages| - 1], low), messages[|messages| - 1].uid)
  }

  /** The stored cursor is only rewritten when there is something new. */
  function Advanced(c: Config, chosen: seq<Message>): Config {
    var uid := HighestUid(chosen, Max(0, c.lastSeenUid));
    c.(seenMessageIds := if Ids(chosen) == [] then c.seenMessageIds else Normalized(c.seenMessageIds + Ids(chosen)),
       lastSeenUid := if uid > Max(0, c.lastSeenUid) then uid else c.lastSeenUid)
  }

  // ---------------------------------------------------------------- what a call answers, message by message

  /** The part stands somewhere in the text, letter by letter up to case. */
  ghost predicate FoundIn(text: string, part: string) {
    exists i: nat :: SameLetters(text, i, part)
  }

  predicate SameLetters(text: string, i: nat, part: string) {
    i + |part| <= |text| && forall k :: 0 <= k < |part| ==> LowerChar(text[i + k]) == LowerChar(part[k])
  }

  lemma FoldedStands(text: string, i: nat, part: string)
    ensures StandsAt(ToLower(text), i, ToLower(part)) <==> SameLetters(text, i, part)
  {
    var s, p := ToLower(text), ToLower(part);
    if i + |part| <= |text| {
      forall k | 0 <= k < |part| ensures s[i..i + |part|][k] == LowerChar(text[i + k]) && p[k] == LowerChar(part[k]) {}
      if SameLetters(text, i, part) {
        assert s[i..i + |part|] == p;
      }
    }
  }

  lemma ContainsFoldIff(text: string, part: string)
    ensures ContainsFold(text, part) <==> FoundIn(text, part)
  {
    ContainsIff(ToLower(text), ToLower(part));
    forall i: nat ensures StandsAt(ToLower(text), i, ToLower(part)) <==> SameLetters(text, i, part) {
      FoldedStands(text, i, part);
    }
  }

  /** The message is wanted: new, from the sender and to the recipient asked for, and not without a subject. */
  ghost predicate Wanted(c: Config, m: Message) {
    var id, from, alias := TrimSpace(m.messageId), TrimSpace(c.fromFilter), TrimSpace(c.recipientAlias);
    && TrimSpace(m.subject) != ""
    && (id == "" || forall i :: 0 <= i < |c.seenMessageIds| ==> TrimSpace(c.seenMessageIds[i]) != id)
    && (from == "" || FoundIn(m.from, from))
    && (alias == "" || exists i :: 0 <= i < |m.to| && FoundIn(m.to[i], alias))
  }

  predicate ItemOf(x: Item, m: Message) {
    && x.title == TrimSpace(m.subject) && x.author == TrimSpace(m.from) && x.uid == m.uid
    && x.externalId == if TrimSpace(m.messageId) == "" then None else Some(TrimSpace(m.messageId))
  }

  lemma CollectableIsWanted(c: Config, m: Message)
    ensures Collectable(c, m) <==> Wanted(c, m)
  {
    var id, from, alias := TrimSpace(m.messageId), TrimSpace(c.fromFilter), TrimSpace(c.recipientAlias);
    ContainsFoldIff(m.from, from);
    forall i | 0 <= i < |m.to| ensures ContainsFold(m.to[i], alias) <==> FoundIn(m.to[i], alias) {
      ContainsFoldIff(m.to[i], alias);
    }
    NormalizedKeeps(c.seenMessageIds, id);
    assert forall i :: 0 <= i < |c.seenMessageIds| ==> Trimmed(c.seenMessageIds)[i] == TrimSpace(c.seenMessageIds[i]);
  }

  /** The messages at these positions of the mailbox are the wanted ones, in order. */
  ghost predicate WantedAt(c: Config, messages: seq<Message>, at: seq<nat>) {
    && (forall k :: 0 <= k < |at| ==> at[k] < |messages|)
    && (forall j, k :: 0 <= j < k < |at| ==> at[j] < at[k])
    && (forall i: nat :: i in at <==> i < |messages| && Wanted(c, messages[i]))
  }

  /** The answer of a call: one item for each wanted message, in the order of the mailbox. */
  ghost predicate RightItems(c: Config, messages: seq<Message>, items: seq<Item>) {
    exists at :: WantedAt(c, messages, at) && |items| == |at| && ItemsAt(messages, at, items)
  }

  ghost predicate ItemsAt(messages: seq<Message>, at: seq<nat>, items: seq<Item>)
    requires |items| == |at| && forall k :: 0 <= k < |at| ==> at[k] < |messages|
  {
    forall k :: 0 <= k < |at| ==> ItemOf(items[k], messages[at[k]])
  }

  ghost function WantedPositions(c: Config, messages: seq<Message>): seq<nat> {
    if messages == [] then []
    else
      var last := |messages| - 1;
      WantedPositions(c, messages[..last]) + if Wanted(c, messages[last]) then [last] else []
  }

  lemma {:induction false} PositionsAreWanted(c: Config, messages: seq<Message>)
    ensures WantedAt(c, messages, WantedPositions(c, messages))
  {
    if messages != [] {
      var last := |messages| - 1;
      PositionsAreWanted(c, messages[..last]);
      WantedSnoc(c, messages, WantedPositions(c, messages[..last]));
    }
  }

  lemma WantedSnoc(c: Config, messages: seq<Message>, at: seq<nat>)
    requires messages != [] && WantedAt(c, messages[..|messages| - 1], at)
    ensures var last := |messages| - 1; WantedAt(c, messages, at + if Wanted(c, messages[last]) then [last] else [])
  {
    var last := |messages| - 1;
    var front, at' := messages[..last], at + if Wanted(c, messages[last]) then [last] else [];
    forall i: nat ensures i in at' <==> i < |messages| && Wanted(c, messages[i]) {
      assert i < last ==> front[i] == messages[i];
      assert i in at' <==> i in at || (i == last && Wanted(c, messages[last]));
    }
  }

  lemma {:induction false} ChosenAtPositions(c: Config, messages: seq<Message>)
    ensures var at := WantedPositions(c, messages);
            && |at| == |Chosen(c, messages)|
            && forall k :: 0 <= k < |at| ==> at[k] < |messages| && Chosen(c, messages)[k] == messages[at[k]]
  {
    if messages != [] {
      var last := |messages| - 1;
      ChosenAtPositions(c, messages[..last]);
      CollectableIsWanted(c, messages[last]);
    }
  }

  lemma ChosenAreRight(c: Config, messages: seq<Message>)
    ensures RightItems(c, messages, Items(Chosen(c, messages)))
  {
    var at, items := WantedPositions(c, messages), Items(Chosen(c, messages));
    PositionsAreWanted(c, messages);
    ChosenAtPositions(c, messages);
    forall k | 0 <= k < |at| ensures ItemOf(items[k], messages[at[k]]) {
      assert items[k] == ToItem(Chosen(c, messages)[k]);
    }
    assert ItemsAt(messages, at, items);
  }

  class Collector {
    /** The source's stored config, which Collect updates in place; None when it is not JSON of the expected shape. */
    var stored: Option<Config>

    constructor (stored: Option<Config>)
      ensures this.stored == stored
    {
      this.stored := stored;
    }

    /** `mailbox` is what the reader returns, None when it fails. */
    method Collect(mailbox: Option<seq<Message>>) returns (outcome: Outcome)
      modifies this
      ensures old(stored).None? || !Blank(old(stored).value.password) ==> outcome == Failed(InvalidEmailConfig)
      ensures old(stored).Some? && Blank(old(stored).value.password) && mailbox.None? ==>
                outcome == Failed(MailboxReadFailed)
      ensures outcome.Failed? ==> stored == old(stored)
      ensures old(stored).Some? && Blank(old(stored).value.password) && mailbox.Some? ==>
                var chosen := Chosen(old(stored).value, mailbox.value);
                outcome == Collected(Items(chosen)) && stored == Some(Advanced(old(stored).value, chosen))
      ensures outcome.Collected? ==>
                && old(stored).Some? && mailbox.Some? && TrimSpace(old(stored).value.password) == ""
                && RightItems(old(stored).value, mailbox.value, outcome.items)
                && stored.Some? && stored.value.password == old(stored).value.password
                && stored.value.fromFilter == old(stored).value.fromFilter
                && stored.value.recipientAlias == old(stored).value.recipientAlias
    {
      if stored.Some? && mailbox.Some? {
        ChosenAreRight(stored.value, mailbox.value);
      }
      if stored.None? || TrimSpace(stored.value.password) != "" {
        return Failed(InvalidEmailConfig);
      }
      var config := stored.value;
      var existing := NormalizeSeenMessageIDs(config.seenMessageIds);
      var start := if config.lastSeenUid < 0 then 0 else config.lastSeenUid;
      if mailbox.None? {
        return Failed(MailboxReadFailed);
      }
      var items, newIds, uid := Select(config, mailbox.value, existing, start);
      if newIds != [] {
        NormalizedAbsorbs(config.seenMessageIds, newIds);
        var merged := NormalizeSeenMessageIDs(existing + newIds);
        stored := Some(stored.value.(seenMessageIds := merged));
      }
      if uid > start && uid > 0 {
        stored := Some(stored.value.(lastSeenUid := uid));
      }
      return Collected(items);
    }

    /** The loop over the mailbox. The seen set is not extended inside one call. */
    method Select(config: Config, messages: seq<Message>, existing: seq<string>, start: int)
      returns (items: seq<Item>, newIds: seq<string>, uid: int)
      requires existing == Normalized(config.seenMessageIds)
      ensures var chosen := Chosen(config, messages);
              items == Items(chosen) && newIds == Ids(chosen) && uid == HighestUid(chosen, start)
    {
      NormalizedTwice(config.seenMessageIds);
      var seen := SeenMessageIDSet(existing);
      items, newIds, uid := [], [], start;
      ghost var chosen: seq<Message> := [];
      for i := 0 to |messages|
        invariant chosen == Chosen(config, messages[..i])
        invariant items == Items(chosen) && newIds == Ids(chosen) && uid == HighestUid(chosen, start)
      {
        assert messages[..i + 1][..i] == messages[..i];
        var msg := messages[i];
        var id := TrimSpace(msg.messageId);
        if id != "" && id in seen {
          continue;
        }
        if !MatchesFilters(config, msg) {
          continue;
        }
        if TrimSpace(msg.subject) == "" {
          continue;
        }
        assert (chosen + [msg])[..|chosen|] == chosen;
        chosen := chosen + [msg];
        items := items + [ToItem(msg)];
        if id != "" {
          newIds := newIds + [id];
        }
        if msg.uid > uid {
          uid := msg.uid;
        }
      }
      assert messages[..|messages|] == messages;
    }
  }

  // ---------------------------------------------------------------- sequences of calls whose cursor is saved

  /** The config that call k leaves was saved. */
  ghost predicate Saved(configs: seq<Config>, calls: seq<seq<Message>>, k: nat)
    requires k < |calls| && k + 1 < |configs|
  {
    configs[k + 1] == Advanced(configs[k], Chosen(configs[k], calls[k]))
  }

  /** configs[k] is the stored config before call k; every call's new config is saved. */
  ghost predicate Run(configs: seq<Config>, calls: seq<seq<Message>>) {
    |configs| == |calls| + 1 && forall k: nat :: k < |calls| ==> Saved(configs, calls, k)
  }

  /** The seen list before call k, as parseConfig reads it. */
  function SeenBefore(configs: seq<Config>, k: nat): seq<string>
    requires k < |configs|
  {
    Normalized(configs[k].seenMessageIds)
  }

  /** The non-empty message ids each call collects. */
  function Batches(configs: seq<Config>, calls: seq<seq<Message>>): (r: seq<seq<string>>)
    requires |configs| == |calls| + 1
    ensures |r| == |calls|
  {
    seq(|calls|, k requires 0 <= k < |calls| => Ids(Chosen(configs[k], calls[k])))
  }

  lemma {:induction false} IdsConcat(a: seq<Message>, b: seq<Message>)
    ensures Ids(a + b) == Ids(a) + Ids(b)
  {
    if b == [] {
      assert a + b == a;
    } else {
      assert (a + b)[..|a + b| - 1] == a + b[..|b| - 1];
      IdsConcat(a, b[..|b| - 1]);
    }
  }

  lemma {:induction false} IdsAreTrimmed(messages: seq<Message>)
    ensures Trimmed(Ids(messages)) == Ids(messages) && "" !in Ids(messages)
  {
    if messages != [] {
      var last := messages[|messages| - 1];
      IdsAreTrimmed(messages[..|messages| - 1]);
      TrimSpaceIdempotent(last.messageId);
    }
  }

  /** What a call collects was not in the seen list before it. */
  lemma {:induction false} CollectedIsNew(c: Config, messages: seq<Message>, id: string)
    requires id in Ids(Chosen(c, messages))
    ensures !Sees(c, id)
  {
    var last := messages[|messages| - 1];
    var before := Chosen(c, messages[..|messages| - 1]);
    if id in Ids(before) {
      CollectedIsNew(c, messages[..|messages| - 1], id);
    } else {
      assert before + [] == before;
      assert Chosen(c, messages) == before + [last];
      IdsConcat(before, [last]);
      assert Ids([last]) == [Id(last)];
    }
  }

  lemma {:induction false} HighestUidGrows(messages: seq<Message>, low: int)
    ensures HighestUid(messages, low) >= low
  {
    if messages != [] {
      HighestUidGrows(messages[..|messages| - 1], low);
    }
  }

  /** What one call does to the cursor as parseConfig reads it. */
  lemma {:induction false} AdvancedEffect(c: Config, chosen: seq<Message>)
    ensures Normalized(Advanced(c, chosen).seenMessageIds)
            == Extend(Normalized(c.seenMessageIds), Ids(chosen), "", |Ids(chosen)|)
    ensures Max(0, Advanced(c, chosen).lastSeenUid) == HighestUid(chosen, Max(0, c.lastSeenUid))
  {
    HighestUidGrows(chosen, Max(0, c.lastSeenUid));
    NormalizedTwice(c.seenMessageIds + Ids(chosen));
    NormalizedAbsorbs(c.seenMessageIds, Ids(chosen));
    IdsAreTrimmed(chosen);
  }

  /** Batch k is what call k collects, and extends the seen list. */
  ghost predicate SeenRises(configs: seq<Config>, calls: seq<seq<Message>>, batches: seq<seq<string>>, k: nat)
    requires k < |calls| == |batches| && k + 1 < |configs|
  {
    SeenBefore(configs, k + 1) == Extend(SeenBefore(configs, k), batches[k], "", |batches[k]|)
  }

  lemma SeenStep(configs: seq<Config>, calls: seq<seq<Message>>, k: nat)
    requires Run(configs, calls) && k < |calls|
    ensures SeenRises(configs, calls, Batches(configs, calls), k)
  {
    assert Saved(configs, calls, k);
    AdvancedEffect(configs[k], Chosen(configs[k], calls[k]));
  }

  lemma {:induction false} SeenRisesOn(configs: seq<Config>, calls: seq<seq<Message>>, batches: seq<seq<string>>,
                                       n: nat)
    requires |configs| == |calls| + 1 && n <= |calls| == |batches|
    requires forall k: nat :: k < n ==> SeenRises(configs, calls, batches, k)
    ensures SeenBefore(configs, n) == Extended(SeenBefore(configs, 0), batches, "", n)
  {
    if n > 0 {
      SeenRisesOn(configs, calls, batches, n - 1);
      assert SeenRises(configs, calls, batches, n - 1);
      ExtendedStep(SeenBefore(configs, 0), batches, "", n - 1, batches[n - 1]);
    }
  }

  lemma SeenIsExtended(configs: seq<Config>, calls: seq<seq<Message>>, n: nat)
    requires Run(configs, calls) && n <= |calls|
    ensures SeenBefore(configs, n) == Extended(SeenBefore(configs, 0), Batches(configs, calls), "", n)
  {
    forall k: nat | k < n ensures SeenRises(configs, calls, Batches(configs, calls), k) {
      SeenStep(configs, calls, k);
    }
    SeenRisesOn(configs, calls, Batches(configs, calls), n);
  }

  /**
   The effective seen list is the initial one extended by every id collected since, each once and in
   first-seen order.
   */
  lemma {:induction false} SeenListIsHistory(configs: seq<Config>, calls: seq<seq<Message>>, n: nat)
    requires Run(configs, calls) && n <= |calls|
    ensures var all := Joined(Batches(configs, calls), n);
            SeenBefore(configs, n) == Extend(SeenBefore(configs, 0), all, "", |all|)
  {
    SeenIsExtended(configs, calls, n);
    ExtendedIsHistory(SeenBefore(configs, 0), Batches(configs, calls), "", n);
  }

  /** From one call to a later one it only grows at its end, and stays free of blanks and repetitions. */
  lemma SeenListOnlyGrows(configs: seq<Config>, calls: seq<seq<Message>>, m: nat, n: nat)
    requires Run(configs, calls) && m <= n <= |calls|
    ensures SeenBefore(configs, m) <= SeenBefore(configs, n)
    ensures Clean(SeenBefore(configs, n), "")
  {
    SeenIsExtended(configs, calls, m);
    SeenIsExtended(configs, calls, n);
    NormalizedIsClean(configs[0].seenMessageIds);
    ExtendedGrows(SeenBefore(configs, 0), Batches(configs, calls), "", m, n);
  }

  /** Over any sequence of calls, a non-empty message id is collected in at most one of them. */
  lemma CollectedAtMostOnce(configs: seq<Config>, calls: seq<seq<Message>>, i: nat, j: nat, id: string)
    requires Run(configs, calls) && i < |calls| && j < |calls|
    requires id in Batches(configs, calls)[i] && id in Batches(configs, calls)[j]
    ensures i == j
  {
    CollectedNotBefore(configs, calls, i, j, id);
    CollectedNotBefore(configs, calls, j, i, id);
  }

  lemma CollectedNotBefore(configs: seq<Config>, calls: seq<seq<Message>>, i: nat, j: nat, id: string)
    requires Run(configs, calls) && i < |calls| && j < |calls|
    requires id in Batches(configs, calls)[i] && id in Batches(configs, calls)[j]
    ensures j <= i
  {
    IdsAreTrimmed(Chosen(configs[i], calls[i]));
    CollectedIsNew(configs[j], calls[j], id);
    SeenIsExtended(configs, calls, j);
    NormalizedIsClean(configs[0].seenMessageIds);
    NewBatchesDisjoint(SeenBefore(configs, 0), Batches(configs, calls), "", i, j, id);
  }

  /** The highest UID the first n calls collected, at least `low`. */
  function HighestSince(configs: seq<Config>, calls: seq<seq<Message>>, n: nat, low: int): int
    requires n <= |calls| < |configs|
  {
    if n == 0 then low
    else HighestUid(Chosen(configs[n - 1], calls[n - 1]), HighestSince(configs, calls, n - 1, low))
  }

  /** One call raises the effective last_seen_uid to the highest UID it collects, and never lowers it. */
  ghost predicate UidRises(configs: seq<Config>, calls: seq<seq<Message>>, k: nat)
    requires k < |calls| && k + 1 < |configs|
  {
    && Max(0, configs[k + 1].lastSeenUid) == HighestUid(Chosen(configs[k], calls[k]), Max(0, configs[k].lastSeenUid))
    && Max(0, configs[k].lastSeenUid) <= Max(0, configs[k + 1].lastSeenUid)
  }

  lemma UidStep(configs: seq<Config>, calls: seq<seq<Message>>, k: nat)
    requires Run(configs, calls) && k < |calls|
    ensures UidRises(configs, calls, k)
  {
    assert Saved(configs, calls, k);
    var before, chosen := configs[k], Chosen(configs[k], calls[k]);
    AdvancedEffect(before, chosen);
    HighestUidGrows(chosen, Max(0, before.lastSeenUid));
  }

  lemma {:induction false} UidRisesOn(configs: seq<Config>, calls: seq<seq<Message>>, n: nat)
    requires |configs| == |calls| + 1 && n <= |calls| && forall k: nat :: k < n ==> UidRises(configs, calls, k)
    ensures Max(0, configs[n].lastSeenUid) == HighestSince(configs, calls, n, Max(0, configs[0].lastSeenUid))
  {
    if n > 0 {
      UidRisesOn(configs, calls, n - 1);
      assert UidRises(configs, calls, n - 1);
    }
  }

  /** The effective last_seen_uid is the maximum of its old value and every collected UID. */
  lemma UidIsMaximum(configs: seq<Config>, calls: seq<seq<Message>>, n: nat)
    requires Run(configs, calls) && n <= |calls|
    ensures Max(0, configs[n].lastSeenUid) == HighestSince(configs, calls, n, Max(0, configs[0].lastSeenUid))
  {
    forall k: nat | k < n ensures UidRises(configs, calls, k) {
      UidStep(configs, calls, k);
    }
    UidRisesOn(configs, calls, n);
  }

  /** It never decreases. */
  lemma {:induction false} UidNeverDecreases(configs: seq<Config>, calls: seq<seq<Message>>, m: nat, n: nat)
    requires Run(configs, calls) && m <= n <= |calls|
    ensures Max(0, configs[m].lastSeenUid) <= Max(0, configs[n].lastSeenUid)
  {
    if m < n {
      UidNeverDecreases(configs, calls, m, n - 1);
      assert UidRises(configs, calls, n - 1) by {
        UidStep(configs, calls, n - 1);
      }
    }
  }

  /** HighestUid is an upper bound that is reached. */
  lemma {:induction false} HighestUidIsMaximum(messages: seq<Message>, low: int)
    ensures forall m :: m in messages ==> m.uid <= HighestUid(messages, low)
    ensures HighestUid(messages, low) == low || exists m :: m in messages && m.uid == HighestUid(messages, low)
  {
    if messages != [] {
      HighestUidIsMaximum(messages[..|messages| - 1], low);
      assert messages == messages[..|messages| - 1] + [messages[|messages| - 1]];
    }
  }

  /** Exactly the messages that are new, inside the filters and have a subject are collected. */
  lemma {:induction false} ChosenAreCollectable(c: Config, messages: seq<Message>, m: Message)
    ensures m in Chosen(c, messages) <==> m in messages && Collectable(c, m)
  {
    if messages != [] {
      ChosenAreCollectable(c, messages[..|messages| - 1], m);
      assert messages == messages[..|messages| - 1] + [messages[|messages| - 1]];
    }
  }
}
