// The append-only session store: entries with parents, branching, and compaction.
module SessionStore {
  import opened IdOrder
  import opened Text

  /** Ids come from a counter, which stands for `randomUUID`: every draw is new. */
  type EntryId = nat
  type SessionId = nat

  /** Arguments are kept as their JSON text. */
  datatype ToolCall = ToolCall(id: string, name: string, arguments: string)

  datatype EntryRole = SystemEntry | UserEntry | AssistantEntry | ToolEntry | SummaryEntry

  /** What the caller of `append` supplies. */
  datatype Draft = Draft(role: EntryRole, content: string, toolCallId: Option<string>, toolName: Option<string>,
                         toolCalls: Option<seq<ToolCall>>)

  datatype Entry = Entry(id: EntryId, session: SessionId, parent: Option<EntryId>, body: Draft, compacted: seq<EntryId>)

  function EntryIds(entries: seq<Entry>): (ids: seq<EntryId>)
    ensures |ids| == |entries| && forall i :: 0 <= i < |entries| ==> ids[i] == entries[i].id
  {
    seq(|entries|, i requires 0 <= i < |entries| => entries[i].id)
  }

  /** Empty optional strings are not written. */
  function Written(field: Option<string>): Option<string> { if field == Some("") then None else field }

  function Stored(d: Draft): Draft { d.(toolCallId := Written(d.toolCallId), toolName := Written(d.toolName)) }

  /** Every parent is an earlier entry of the same log. */
  ghost predicate WellLinked(entries: seq<Entry>) {
    forall i :: 0 <= i < |entries| ==> entries[i].parent == None || entries[i].parent.value in EntryIds(entries[..i])
  }

  ghost predicate WellFormedLog(s: SessionId, entries: seq<Entry>, bound: nat) {
    && Distinct(EntryIds(entries)) && WellLinked(entries)
    && forall e :: e in entries ==> e.session == s && e.id < bound
  }

  // ---- compaction ----

  function Keep(entries: seq<Entry>, keep: set<EntryId>): seq<Entry> {
    if entries == [] then []
    else (if entries[0].id in keep then [entries[0]] else []) + Keep(entries[1..], keep)
  }

  function Drop(entries: seq<Entry>, keep: set<EntryId>): seq<EntryId> {
    if entries == [] then []
    else (if entries[0].id in keep then [] else [entries[0].id]) + Drop(entries[1..], keep)
  }

  lemma {:induction false} KeepElems(entries: seq<Entry>, keep: set<EntryId>)
    ensures forall e :: e in Keep(entries, keep) <==> e in entries && e.id in keep
    decreases |entries|
  {
    if entries != [] {
      KeepElems(entries[1..], keep);
      assert forall e :: e in entries <==> e == entries[0] || e in entries[1..];
    }
  }

  /** The kept entries, each now the child of the one before it, the first the child of `parent`. */
  function Rechain(kept: seq<Entry>, parent: EntryId): (r: seq<Entry>)
    ensures |r| == |kept|
  {
    if kept == [] then [] else [kept[0].(parent := Some(parent))] + Rechain(kept[1..], kept[0].id)
  }

  lemma {:induction false} RechainAt(kept: seq<Entry>, parent: EntryId, i: nat)
    requires i < |kept|
    ensures Rechain(kept, parent)[i] == kept[i].(parent := Some(if i == 0 then parent else kept[i - 1].id))
    decreases i
  {
    if i > 0 {
      RechainAt(kept[1..], kept[0].id, i - 1);
    }
  }

  function Compacted(entries: seq<Entry>, keep: set<EntryId>, summaryId: EntryId, s: SessionId, text: string): seq<Entry> {
    [Entry(summaryId, s, None, Draft(SummaryEntry, text, None, None, None), Drop(entries, keep))]
      + Rechain(Keep(entries, keep), summaryId)
  }

  /** Kept and dropped ids interleave to the old ids: nothing is lost, doubled or reordered. */
  ghost predicate Interleaves(kept: seq<EntryId>, dropped: seq<EntryId>, all: seq<EntryId>)
    decreases |all|
  {
    if all == [] then kept == [] && dropped == []
    else
      || (kept != [] && kept[0] == all[0] && Interleaves(kept[1..], dropped, all[1..]))
      || (dropped != [] && dropped[0] == all[0] && Interleaves(kept, dropped[1..], all[1..]))
  }

  lemma EntryIdsTail(entries: seq<Entry>)
    requires entries != []
    ensures EntryIds(entries)[0] == entries[0].id && EntryIds(entries)[1..] == EntryIds(entries[1..])
  {
  }

  lemma {:induction false} CompactPartitions(entries: seq<Entry>, keep: set<EntryId>)
    ensures Interleaves(EntryIds(Keep(entries, keep)), Drop(entries, keep), EntryIds(entries))
    decreases |entries|
  {
    if entries != [] {
      var e, rest := entries[0], entries[1..];
      CompactPartitions(rest, keep);
      EntryIdsTail(entries);
      if e.id in keep {
        var kept := [e] + Keep(rest, keep);
        assert Keep(entries, keep) == kept && kept[1..] == Keep(rest, keep);
        assert Drop(entries, keep) == Drop(rest, keep);
        EntryIdsTail(kept);
      } else {
        assert Keep(entries, keep) == Keep(rest, keep);
        assert Drop(entries, keep)[1..] == Drop(rest, keep);
      }
    }
  }

  lemma {:induction false} KeepDistinct(entries: seq<Entry>, keep: set<EntryId>)
    requires Distinct(EntryIds(entries))
    ensures Distinct(EntryIds(Keep(entries, keep)))
    decreases |entries|
  {
    if entries != [] {
      var e, rest := entries[0], entries[1..];
      forall i, j | 0 <= i < j < |rest| ensures EntryIds(rest)[i] != EntryIds(rest)[j] {
        assert EntryIds(entries)[i + 1] != EntryIds(entries)[j + 1];
      }
      KeepDistinct(rest, keep);
      KeepElems(rest, keep);
      var k := Keep(rest, keep);
      forall i | 0 <= i < |k| ensures k[i].id != e.id {
        assert k[i] in rest;
        var j :| 0 <= j < |rest| && rest[j] == k[i];
        assert EntryIds(entries)[0] != EntryIds(entries)[j + 1];
      }
    }
  }

  /** One of the old entries, but for its parent. */
  predicate ReparentOf(e: Entry, entries: seq<Entry>) { exists o :: o in entries && e == o.(parent := e.parent) }

  lemma RechainIds(kept: seq<Entry>, parent: EntryId)
    ensures EntryIds(Rechain(kept, parent)) == EntryIds(kept)
  {
    forall i | 0 <= i < |kept| ensures Rechain(kept, parent)[i].id == kept[i].id {
      RechainAt(kept, parent, i);
    }
  }

  lemma KeptIds(entries: seq<Entry>, keep: set<EntryId>)
    ensures forall e :: e in entries ==> (e.id in EntryIds(Keep(entries, keep)) <==> e.id in keep)
  {
    var kept := Keep(entries, keep);
    KeepElems(entries, keep);
    forall e | e in entries ensures e.id in EntryIds(kept) <==> e.id in keep {
      if e.id in keep {
        var j :| 0 <= j < |kept| && kept[j] == e;
        assert EntryIds(kept)[j] == e.id;
      } else {
        forall j | 0 <= j < |kept| ensures EntryIds(kept)[j] != e.id { assert kept[j] in kept; }
      }
    }
  }

  lemma ChainMeans(entries: seq<Entry>, keep: set<EntryId>, head: Entry, log: seq<Entry>)
    requires log == [head] + Rechain(Keep(entries, keep), head.id)
    ensures forall i :: 0 < i < |log| ==> log[i].parent == Some(log[i - 1].id)
    ensures forall i :: 0 < i < |log| ==> ReparentOf(log[i], entries)
  {
    var kept := Keep(entries, keep);
    KeepElems(entries, keep);
    forall i | 0 < i < |log| ensures log[i].parent == Some(log[i - 1].id) && ReparentOf(log[i], entries) {
      RechainAt(kept, head.id, i - 1);
      if i > 1 { RechainAt(kept, head.id, i - 2); }
      assert kept[i - 1] in entries && log[i] == kept[i - 1].(parent := log[i].parent);
    }
  }

  lemma CompactedMeans(entries: seq<Entry>, keep: set<EntryId>, id: EntryId, s: SessionId, text: string, log: seq<Entry>)
    requires log == Compacted(entries, keep, id, s, text)
    ensures log != [] && log[0] == Entry(id, s, None, Draft(SummaryEntry, text, None, None, None), log[0].compacted)
    ensures Interleaves(EntryIds(log[1..]), log[0].compacted, EntryIds(entries))
    ensures forall e :: e in entries ==> (e.id in EntryIds(log[1..]) <==> e.id in keep)
    ensures forall i :: 0 < i < |log| ==> log[i].parent == Some(log[i - 1].id)
    ensures forall i :: 0 < i < |log| ==> ReparentOf(log[i], entries)
  {
    assert log[1..] == Rechain(Keep(entries, keep), id);
    RechainIds(Keep(entries, keep), id);
    KeptIds(entries, keep);
    ChainMeans(entries, keep, log[0], log);
    CompactPartitions(entries, keep);
  }

  /** Compaction leaves a well-formed log: one summary followed by a single chain. */
  lemma CompactedWellFormed(entries: seq<Entry>, keep: set<EntryId>, s: SessionId, text: string, bound: nat)
    requires WellFormedLog(s, entries, bound)
    ensures WellFormedLog(s, Compacted(entries, keep, bound, s, text), bound + 1)
  {
    var kept := Keep(entries, keep);
    KeepDistinct(entries, keep);
    KeepElems(entries, keep);
    var log := Compacted(entries, keep, bound, s, text);
    SummaryThenChain(kept, log, s, bound);
    ChainDistinct(kept, log, bound);
    ChainLinked(kept, log);
  }

  lemma SummaryThenChain(kept: seq<Entry>, log: seq<Entry>, s: SessionId, bound: nat)
    requires log != [] && log[1..] == Rechain(kept, bound) && log[0].id == bound && log[0].session == s
    requires forall e :: e in kept ==> e.session == s && e.id < bound
    ensures forall i :: 0 < i < |log| ==> log[i].id == kept[i - 1].id && log[i].id < bound
    ensures forall e :: e in log ==> e.session == s && e.id < bound + 1
  {
    var chain := Rechain(kept, bound);
    forall i | 0 < i < |log| ensures log[i].id == kept[i - 1].id < bound && log[i].session == s {
      RechainAt(kept, bound, i - 1);
      assert log[i] == chain[i - 1] && kept[i - 1] in kept;
    }
  }

  lemma ChainDistinct(kept: seq<Entry>, log: seq<Entry>, bound: nat)
    requires Distinct(EntryIds(kept)) && |log| == |kept| + 1 && log[0].id == bound
    requires forall i :: 0 < i < |log| ==> log[i].id == kept[i - 1].id && log[i].id < bound
    ensures Distinct(EntryIds(log))
  {
    forall i, j | 0 <= i < j < |log| ensures EntryIds(log)[i] != EntryIds(log)[j] {
      if i > 0 { assert EntryIds(kept)[i - 1] != EntryIds(kept)[j - 1]; }
    }
  }

  lemma ChainLinked(kept: seq<Entry>, log: seq<Entry>)
    requires log != [] && log[0].parent == None && log[1..] == Rechain(kept, log[0].id)
    ensures WellLinked(log)
  {
    var chain := log[1..];
    forall i | 0 < i < |log| ensures log[i].parent.Some? && log[i].parent.value in EntryIds(log[..i]) {
      RechainAt(kept, log[0].id, i - 1);
      assert log[i] == chain[i - 1];
      if i > 1 {
        RechainAt(kept, log[0].id, i - 2);
        assert log[i - 1] == chain[i - 2];
      }
      assert EntryIds(log[..i])[i - 1] == log[i - 1].id;
    }
  }

  // ---- branching ----

  /** The entries up to the given one; all of them without one; none when it is not in the log. */
  function Inherited(entries: seq<Entry>, upTo: Option<EntryId>): (prefix: seq<Entry>)
    ensures prefix <= entries
    ensures upTo.None? ==> prefix == entries
    ensures upTo.Some? && upTo.value !in EntryIds(entries) ==> prefix == []
    ensures upTo.Some? && upTo.value in EntryIds(entries) ==>
              prefix != [] && prefix[|prefix| - 1].id == upTo.value && upTo.value !in EntryIds(prefix[..|prefix| - 1])
  {
    match upTo
    case None => entries
    case Some(id) =>
      if exists i :: 0 <= i < |entries| && FirstAt(entries, id, i) then
        var i :| 0 <= i < |entries| && FirstAt(entries, id, i);
        FirstAtUnique(entries, id);
        assert forall k :: 0 <= k < i ==> EntryIds(entries[..i])[k] == entries[k].id;
        assert entries[..i + 1][..i] == entries[..i];
        entries[..i + 1]
      else
        FirstAtExists(entries, id);
        []
  }

  predicate FirstAt(entries: seq<Entry>, id: EntryId, i: nat)
    requires i < |entries|
  {
    entries[i].id == id && forall j :: 0 <= j < i ==> entries[j].id != id
  }

  lemma FirstAtUnique(entries: seq<Entry>, id: EntryId)
    ensures forall i, j :: 0 <= i < |entries| && 0 <= j < |entries| && FirstAt(entries, id, i) && FirstAt(entries, id, j) ==> i == j
  {
  }

  lemma {:induction false} FirstAtExists(entries: seq<Entry>, id: EntryId)
    ensures id in EntryIds(entries) ==> exists i :: 0 <= i < |entries| && FirstAt(entries, id, i)
    decreases |entries|
  {
    if entries != [] {
      var front := entries[..|entries| - 1];
      FirstAtExists(front, id);
      if i :| 0 <= i < |front| && FirstAt(front, id, i) {
        assert FirstAt(entries, id, i);
      } else if id in EntryIds(entries) {
        forall j | 0 <= j < |front| ensures entries[j].id != id {
          assert EntryIds(front)[j] == entries[j].id;
        }
        assert FirstAt(entries, id, |entries| - 1);
      }
    }
  }

  ghost predicate SameBodies(source: seq<Entry>, copy: seq<Entry>, s: SessionId, firstId: nat) {
    |copy| == |source| && forall i :: 0 <= i < |source| ==>
      copy[i].id == firstId + i && copy[i].session == s && copy[i].body == source[i].body && copy[i].compacted == source[i].compacted
  }

  /** Copies are linked exactly as their originals are. */
  ghost predicate SameShape(source: seq<Entry>, copy: seq<Entry>)
    requires |copy| == |source|
  {
    forall i, j :: 0 <= j < i < |source| ==> (copy[i].parent == Some(copy[j].id) <==> source[i].parent == Some(source[j].id))
  }

  /** A branch copies bodies and the shape of the parent links; only ids and the session differ. */
  ghost predicate IsCopy(source: seq<Entry>, copy: seq<Entry>, s: SessionId, firstId: nat) {
    SameBodies(source, copy, s, firstId) && SameShape(source, copy) && WellLinked(copy)
  }

  lemma CopyWellFormed(source: seq<Entry>, copy: seq<Entry>, s: SessionId, firstId: nat)
    requires IsCopy(source, copy, s, firstId)
    ensures WellFormedLog(s, copy, firstId + |copy|)
  {
  }

  /** The mapping sends the ids of the copied entries to their copies' ids, and knows no others. */
  ghost predicate Mapped(mapping: map<EntryId, EntryId>, copied: seq<Entry>, firstId: nat) {
    && (forall id :: id in mapping <==> id in EntryIds(copied))
    && forall j :: 0 <= j < |copied| ==> copied[j].id in mapping && mapping[copied[j].id] == firstId + j
  }

  /** What holds after copying the first `i` entries. */
  ghost predicate CopiedUpTo(source: seq<Entry>, i: nat, copy: seq<Entry>, mapping: map<EntryId, EntryId>, s: SessionId, firstId: nat)
    requires i <= |source|
  {
    IsCopy(source[..i], copy, s, firstId) && Mapped(mapping, source[..i], firstId)
  }

  method CopyEntries(source: seq<Entry>, s: SessionId, firstId: nat) returns (copy: seq<Entry>)
    requires Distinct(EntryIds(source)) && WellLinked(source)
    ensures IsCopy(source, copy, s, firstId)
  {
    copy := [];
    var mapping: map<EntryId, EntryId> := map[];
    var i := 0;
    while i < |source|
      invariant 0 <= i <= |source| && CopiedUpTo(source, i, copy, mapping, s, firstId)
    {
      ghost var copy0, mapping0 := copy, mapping;
      var entry := source[i];
      mapping := mapping[entry.id := firstId + i];
      var parent := if entry.parent.Some? && entry.parent.value in mapping then Some(mapping[entry.parent.value]) else None;
      copy := copy + [entry.(id := firstId + i, session := s, parent := parent)];
      CopyStep(source, i, copy0, mapping0, s, firstId, parent, copy, mapping);
      i := i + 1;
    }
    assert source[..|source|] == source;
  }

  lemma CopyStep(source: seq<Entry>, i: nat, copy: seq<Entry>, mapping: map<EntryId, EntryId>, s: SessionId, firstId: nat,
                 parent: Option<EntryId>, copy': seq<Entry>, mapping': map<EntryId, EntryId>)
    requires Distinct(EntryIds(source)) && WellLinked(source) && i < |source|
    requires CopiedUpTo(source, i, copy, mapping, s, firstId)
    requires var e := source[i];
             && mapping' == mapping[e.id := firstId + i]
             && parent == (if e.parent.Some? && e.parent.value in mapping' then Some(mapping'[e.parent.value]) else None)
             && copy' == copy + [e.(id := firstId + i, session := s, parent := parent)]
    ensures CopiedUpTo(source, i + 1, copy', mapping', s, firstId)
  {
    var e, before, after := source[i], source[..i], source[..i + 1];
    assert after == before + [e];
    assert EntryIds(after) == EntryIds(before) + [e.id];
    forall j | 0 <= j < i ensures before[j].id != e.id {
      assert EntryIds(source)[j] != EntryIds(source)[i];
    }
    assert e.parent.Some? ==> e.parent.value in mapping && e.parent.value != e.id;
    ExtendMapping(before, e, after, mapping, firstId, mapping');
    ExtendCopy(before, copy, s, firstId, e, parent, mapping, after, copy');
  }

  lemma ExtendMapping(before: seq<Entry>, e: Entry, after: seq<Entry>, mapping: map<EntryId, EntryId>, firstId: nat,
                      mapping': map<EntryId, EntryId>)
    requires Mapped(mapping, before, firstId) && mapping' == mapping[e.id := firstId + |before|]
    requires after == before + [e] && EntryIds(after) == EntryIds(before) + [e.id]
    requires forall j :: 0 <= j < |before| ==> before[j].id != e.id
    ensures Mapped(mapping', after, firstId)
  {
  }

  lemma ExtendCopy(before: seq<Entry>, copy: seq<Entry>, s: SessionId, firstId: nat, e: Entry, parent: Option<EntryId>,
                   mapping: map<EntryId, EntryId>, after: seq<Entry>, copy': seq<Entry>)
    requires IsCopy(before, copy, s, firstId) && Mapped(mapping, before, firstId)
    requires e.parent.Some? ==> e.parent.value in mapping
    requires parent == if e.parent.Some? then Some(mapping[e.parent.value]) else None
    requires after == before + [e] && copy' == copy + [e.(id := firstId + |before|, session := s, parent := parent)]
    ensures IsCopy(after, copy', s, firstId)
  {
    var copied := copy'[|copy|];
    forall j | 0 <= j < |before| ensures parent == Some(copy[j].id) <==> e.parent == Some(before[j].id) {
      ParentMapped(before, copy, firstId, e, parent, mapping, j);
    }
    ShapeExtends(before, copy, e, copied);
    if e.parent.Some? {
      var k :| 0 <= k < |before| && EntryIds(before)[k] == e.parent.value;
      assert EntryIds(copy)[k] == firstId + k && before[k].id in mapping;
    }
    LinksExtend(copy, copied);
  }

  lemma ParentMapped(before: seq<Entry>, copy: seq<Entry>, firstId: nat, e: Entry, parent: Option<EntryId>,
                     mapping: map<EntryId, EntryId>, j: nat)
    requires j < |before| == |copy| && copy[j].id == firstId + j && Mapped(mapping, before, firstId)
    requires e.parent.Some? ==> e.parent.value in mapping
    requires parent == if e.parent.Some? then Some(mapping[e.parent.value]) else None
    ensures parent == Some(copy[j].id) <==> e.parent == Some(before[j].id)
  {
    if parent == Some(copy[j].id) {
      var k :| 0 <= k < |before| && EntryIds(before)[k] == e.parent.value;
      assert before[k].id in mapping && mapping[before[k].id] == firstId + k;
    }
  }

  lemma ShapeExtends(source: seq<Entry>, copy: seq<Entry>, e: Entry, c: Entry)
    requires |copy| == |source| && SameShape(source, copy)
    requires forall j :: 0 <= j < |source| ==> (c.parent == Some(copy[j].id) <==> e.parent == Some(source[j].id))
    ensures SameShape(source + [e], copy + [c])
  {
  }

  lemma LinksExtend(log: seq<Entry>, e: Entry)
    ensures WellLinked(log + [e]) <==> WellLinked(log) && (e.parent.None? || e.parent.value in EntryIds(log))
  {
    var next := log + [e];
    assert next[..|log|] == log && next[|log|] == e;
    forall i | 0 <= i < |log| ensures next[..i] == log[..i] && next[i] == log[i] {}
    if WellLinked(next) {
      forall i | 0 <= i < |log| ensures log[i].parent == None || log[i].parent.value in EntryIds(log[..i]) {
        assert next[i].parent == None || next[i].parent.value in EntryIds(next[..i]);
      }
    }
  }

  // ---- the store ----

  datatype Result<T> = Ok(value: T) | UnknownSession

  type Sessions = map<SessionId, seq<Entry>>

  ghost predicate ValidStore(sessions: Sessions, nextId: nat, owner: map<EntryId, SessionId>) {
    && (forall s :: s in sessions ==> ValidSession(s, sessions[s], nextId, owner))
    && forall id :: id in owner ==> id < nextId
  }

  ghost predicate ValidSession(s: SessionId, log: seq<Entry>, nextId: nat, owner: map<EntryId, SessionId>) {
    s < nextId && WellFormedLog(s, log, nextId) && Owns(owner, s, log)
  }

  /** Rewriting one session with newly claimed ids keeps the store valid exactly when the new log is. */
  lemma RewriteSession(sessions: Sessions, nextId: nat, owner: map<EntryId, SessionId>, s: SessionId, log: seq<Entry>,
                       nextId': nat, owner': map<EntryId, SessionId>)
    requires ValidStore(sessions, nextId, owner) && nextId <= nextId'
    requires forall id :: id in owner ==> id in owner' && owner'[id] == owner[id]
    requires forall id :: id in owner' ==> id < nextId'
    ensures ValidStore(sessions[s := log], nextId', owner') <==> ValidSession(s, log, nextId', owner')
  {
    var next := sessions[s := log];
    if ValidStore(next, nextId', owner') {
      assert s in next;
    }
    forall t | t in sessions && t != s ensures ValidSession(t, next[t], nextId', owner') {
      assert ValidSession(t, sessions[t], nextId, owner);
    }
  }

  lemma BranchValid(sessions: Sessions, nextId: nat, owner: map<EntryId, SessionId>, source: seq<Entry>, s: SessionId, copy: seq<Entry>)
    requires ValidStore(sessions, nextId, owner) && IsCopy(source, copy, s, nextId) && s < nextId
    ensures ValidStore(sessions[s := copy], nextId + |copy|, Claim(owner, s, nextId, |copy|))
  {
    CopyWellFormed(source, copy, s, nextId);
    RewriteSession(sessions, nextId, owner, s, copy, nextId + |copy|, Claim(owner, s, nextId, |copy|));
  }

  class SessionStore {
    var sessions: map<SessionId, seq<Entry>>
    var nextId: nat
    /** The session each id was given out for; this is what makes ids unique over the whole store. */
    ghost var owner: map<EntryId, SessionId>

    /** Ids are unique over the whole store, parents are earlier entries of the same session, and new ids are free. */
    ghost predicate Valid()
      reads this
    {
      ValidStore(sessions, nextId, owner)
    }

    constructor ()
      ensures Valid() && sessions == map[]
    {
      sessions, nextId, owner := map[], 0, map[];
    }

    method Create() returns (s: SessionId)
      requires Valid()
      modifies this
      ensures Valid() && s !in old(sessions) && sessions == old(sessions)[s := []]
      ensures s == old(nextId) && nextId == old(nextId) + 1 && owner == old(owner)
    {
      s := nextId;
      RewriteSession(sessions, nextId, owner, s, [], nextId + 1, owner);
      assert s in sessions ==> ValidSession(s, sessions[s], nextId, owner);
      nextId := nextId + 1;
      sessions := sessions[s := []];
    }

    /** The log of a session: distinct ids, all of this session, and every parent an earlier entry of it. */
    method ReadEntries(s: SessionId) returns (r: Result<seq<Entry>>)
      ensures s !in sessions <==> r.UnknownSession?
      ensures r.Ok? ==> r.value == sessions[s] && (Valid() ==> WellFormedLog(s, r.value, nextId))
    {
      r := if s in sessions then Ok(sessions[s]) else UnknownSession;
      if Valid() && s in sessions {
        assert ValidSession(s, sessions[s], nextId, owner);
      }
    }

    /** A given parent is taken as it is; without one the entry follows the last one. */
    method Append(s: SessionId, draft: Draft, parent: Option<EntryId>) returns (r: Result<Entry>)
      requires Valid()
      modifies this
      ensures s !in old(sessions) ==> r == UnknownSession && sessions == old(sessions) && Valid()
      ensures s in old(sessions) ==> r.Ok? && r.value == Entry(old(nextId), s, r.value.parent, Stored(draft), [])
      ensures s in old(sessions) && parent.Some? ==> r.value.parent == parent
      ensures s in old(sessions) && parent.None? ==>
                var log := old(sessions)[s];
                r.value.parent == if log == [] then None else Some(log[|log| - 1].id)
      ensures s in old(sessions) ==> sessions == old(sessions)[s := old(sessions)[s] + [r.value]]
      ensures s in old(sessions) ==> (Valid() <==> parent.None? || parent.value in EntryIds(old(sessions)[s]))
    {
      if s !in sessions { return UnknownSession; }
      var existing := sessions[s];
      var after := if parent.Some? then parent else if existing == [] then None else Some(existing[|existing| - 1].id);
      var entry := Entry(nextId, s, after, Stored(draft), []);
      assert ValidSession(s, existing, nextId, owner);
      AppendLinks(s, existing, entry, nextId, owner);
      RewriteSession(sessions, nextId, owner, s, existing + [entry], nextId + 1, owner[entry.id := s]);
      sessions := sessions[s := existing + [entry]];
      owner := owner[entry.id := s];
      nextId := nextId + 1;
      return Ok(entry);
    }

    method Branch(s: SessionId, upTo: Option<EntryId>) returns (r: Result<SessionId>)
      requires Valid()
      modifies this
      ensures Valid()
      ensures s !in old(sessions) ==> r == UnknownSession && sessions == old(sessions)
      ensures s in old(sessions) ==> r == Ok(old(nextId)) && old(nextId) !in old(sessions)
      ensures s in old(sessions) ==> sessions.Keys == old(sessions).Keys + {old(nextId)}
      ensures s in old(sessions) ==> forall t :: t in old(sessions) ==> sessions[t] == old(sessions)[t]
      ensures s in old(sessions) ==> IsCopy(Inherited(old(sessions)[s], upTo), sessions[old(nextId)], old(nextId), old(nextId) + 1)
    {
      if s !in sessions { return UnknownSession; }
      var inherited := Inherited(sessions[s], upTo);
      PrefixWellFormed(sessions, nextId, owner, s, inherited);
      var branch := Create();
      var copy := CopyEntries(inherited, branch, nextId);
      BranchValid(sessions, nextId, owner, inherited, branch, copy);
      sessions := sessions[branch := copy];
      owner := Claim(owner, branch, nextId, |copy|);
      nextId := nextId + |copy|;
      return Ok(branch);
    }

    method Compact(s: SessionId, summary: string, keep: set<EntryId>) returns (r: Result<EntryId>)
      requires Valid()
      modifies this
      ensures Valid()
      ensures s !in old(sessions) ==> r == UnknownSession && sessions == old(sessions)
      ensures s in old(sessions) ==> r == Ok(old(nextId))
      ensures s in old(sessions) ==> sessions == old(sessions)[s := Compacted(old(sessions)[s], keep, old(nextId), s, Trim(summary))]
      ensures s in old(sessions) ==>
                var log := sessions[s];
                log != [] && log[0] == Entry(old(nextId), s, None, Draft(SummaryEntry, Trim(summary), None, None, None), log[0].compacted)
      ensures s in old(sessions) ==>
                Interleaves(EntryIds(sessions[s][1..]), sessions[s][0].compacted, EntryIds(old(sessions)[s]))
      ensures s in old(sessions) ==> forall e :: e in old(sessions)[s] ==> (e.id in EntryIds(sessions[s][1..]) <==> e.id in keep)
      ensures s in old(sessions) ==> forall i :: 0 < i < |sessions[s]| ==> sessions[s][i].parent == Some(sessions[s][i - 1].id)
      ensures s in old(sessions) ==> forall i :: 0 < i < |sessions[s]| ==> ReparentOf(sessions[s][i], old(sessions)[s])
    {
      if s !in sessions { return UnknownSession; }
      var id, text := nextId, Trim(summary);
      var log := Compacted(sessions[s], keep, id, s, text);
      CompactValid(sessions, nextId, owner, s, keep, text, log);
      CompactedMeans(sessions[s], keep, id, s, text, log);
      sessions := sessions[s := log];
      owner := owner[id := s];
      nextId := nextId + 1;
      return Ok(id);
    }
  }

  lemma CompactValid(sessions: Sessions, nextId: nat, owner: map<EntryId, SessionId>, s: SessionId, keep: set<EntryId>,
                     text: string, log: seq<Entry>)
    requires ValidStore(sessions, nextId, owner) && s in sessions && log == Compacted(sessions[s], keep, nextId, s, text)
    ensures ValidStore(sessions[s := log], nextId + 1, owner[nextId := s])
  {
    assert ValidSession(s, sessions[s], nextId, owner);
    RewriteSession(sessions, nextId, owner, s, log, nextId + 1, owner[nextId := s]);
    CompactedWellFormed(sessions[s], keep, s, text, nextId);
    CompactedOwned(owner, sessions[s], keep, s, text, nextId);
  }

  ghost predicate Owns(owner: map<EntryId, SessionId>, s: SessionId, entries: seq<Entry>) {
    forall e :: e in entries ==> e.id in owner && owner[e.id] == s
  }

  predicate InRange(id: nat, firstId: nat, n: nat) { firstId <= id < firstId + n }

  ghost function Claim(owner: map<EntryId, SessionId>, s: SessionId, firstId: nat, n: nat): (r: map<EntryId, SessionId>)
    ensures forall id :: id in r <==> id in owner || InRange(id, firstId, n)
    ensures forall id :: id in r ==> r[id] == if InRange(id, firstId, n) then s else owner[id]
  {
    var claimed := set i: nat | i < firstId + n && InRange(i, firstId, n);
    map id | id in owner.Keys + claimed :: if InRange(id, firstId, n) then s else owner[id]
  }

  /** Entries of different sessions never share an id. */
  lemma IdsUniqueAcrossSessions(store: SessionStore, s: SessionId, t: SessionId, a: Entry, b: Entry)
    requires store.Valid() && s in store.sessions && t in store.sessions
    requires a in store.sessions[s] && b in store.sessions[t] && a.id == b.id
    ensures s == t && a == b
  {
    assert ValidSession(s, store.sessions[s], store.nextId, store.owner) && ValidSession(t, store.sessions[t], store.nextId, store.owner);
    var log := store.sessions[s];
    var i :| 0 <= i < |log| && log[i] == a;
    var j :| 0 <= j < |log| && log[j] == b;
    assert EntryIds(log)[i] == EntryIds(log)[j];
  }

  lemma AppendLinks(s: SessionId, existing: seq<Entry>, entry: Entry, bound: nat, owner: map<EntryId, SessionId>)
    requires ValidSession(s, existing, bound, owner) && entry.id == bound && entry.session == s
    ensures ValidSession(s, existing + [entry], bound + 1, owner[bound := s]) <==>
            entry.parent.None? || entry.parent.value in EntryIds(existing)
    ensures existing != [] ==> existing[|existing| - 1].id in EntryIds(existing)
  {
    var next := existing + [entry];
    LinksExtend(existing, entry);
    forall i, j | 0 <= i < j < |next| ensures EntryIds(next)[i] != EntryIds(next)[j] {
      if j < |existing| {
        assert EntryIds(existing)[i] != EntryIds(existing)[j];
      } else {
        assert existing[i] in existing;
      }
    }
    if existing != [] { assert EntryIds(existing)[|existing| - 1] == existing[|existing| - 1].id; }
  }

  lemma PrefixWellFormed(sessions: Sessions, nextId: nat, owner: map<EntryId, SessionId>, s: SessionId, prefix: seq<Entry>)
    requires ValidStore(sessions, nextId, owner) && s in sessions && prefix <= sessions[s]
    ensures Distinct(EntryIds(prefix)) && WellLinked(prefix)
  {
    var entries := sessions[s];
    assert ValidSession(s, entries, nextId, owner);
    forall i | 0 <= i < |prefix| ensures prefix[i].parent == None || prefix[i].parent.value in EntryIds(prefix[..i]) {
      assert prefix[..i] == entries[..i] && prefix[i] == entries[i];
    }
    forall i, j | 0 <= i < j < |prefix| ensures EntryIds(prefix)[i] != EntryIds(prefix)[j] {
      assert EntryIds(entries)[i] != EntryIds(entries)[j];
    }
  }

  lemma CompactedOwned(owner: map<EntryId, SessionId>, entries: seq<Entry>, keep: set<EntryId>, s: SessionId, text: string, id: EntryId)
    requires Owns(owner, s, entries)
    ensures Owns(owner[id := s], s, Compacted(entries, keep, id, s, text))
  {
    var kept := Keep(entries, keep);
    KeepElems(entries, keep);
    var chain := Rechain(kept, id);
    forall e | e in chain ensures e.id in owner && owner[e.id] == s {
      var i :| 0 <= i < |chain| && chain[i] == e;
      RechainAt(kept, id, i);
      assert kept[i] in kept && kept[i].id == e.id;
    }
  }
}
