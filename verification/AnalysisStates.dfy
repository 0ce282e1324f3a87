/** The bounded per-session store of analysis states, in start order. */
module AnalysisStates {
  import opened Rounding

  datatype Entry<T> = Entry(session: string, state: T)

  function Sessions<T>(entries: seq<Entry<T>>): (ids: seq<string>)
    ensures |ids| == |entries| && forall i | 0 <= i < |ids| :: ids[i] == entries[i].session
  {
    seq(|entries|, i requires 0 <= i < |entries| => entries[i].session)
  }

  ghost predicate Distinct(ids: seq<string>) {
    forall i, j | 0 <= i < j < |ids| :: ids[i] != ids[j]
  }

  function IndexOf<T>(entries: seq<Entry<T>>, id: string): (i: nat)
    ensures i <= |entries| && (forall j | 0 <= j < i :: entries[j].session != id)
    ensures i < |entries| ==> entries[i].session == id
  {
    if entries == [] || entries[0].session == id then 0 else IndexOf(entries[1..], id) + 1
  }

  /** The sessions retained after one more is stored: an old one keeps its place, a new one pushes out the oldest. */
  function Retained(ids: seq<string>, id: string, max: nat): seq<string>
    requires max >= 1
  {
    if id in ids then ids
    else if |ids| >= max then ids[|ids| + 1 - max..] + [id]
    else ids + [id]
  }

  /** `id` carries `state`; every other entry is as before. */
  ghost predicate Updated<T>(entries: seq<Entry<T>>, before: seq<Entry<T>>, id: string, state: T) {
    forall e | e in entries :: if e.session == id then e.state == state else e in before
  }

  class AnalysisStateStore<T> {
    const maxEntries: nat
    var entries: seq<Entry<T>>
    var latest: Option<string>

    /** Something is latest exactly when something is stored, and it is stored. */
    ghost predicate Valid()
      reads this
    {
      && 1 <= maxEntries && |entries| <= maxEntries
      && Distinct(Sessions(entries))
      && (latest.None? <==> entries == [])
      && (latest.Some? ==> latest.value in Sessions(entries))
    }

    constructor (maxEntries: nat)
      requires maxEntries >= 1
      ensures Valid() && entries == [] && this.maxEntries == maxEntries
    {
      this.maxEntries, entries, latest := maxEntries, [], None;
    }

    /** Replaces a session in place or appends it. */
    method Insert(id: string, state: T)
      requires Distinct(Sessions(entries))
      modifies this`entries
      ensures Sessions(entries) == Sessions(old(entries)) + if id in Sessions(old(entries)) then [] else [id]
      ensures id in Sessions(entries)
      ensures Distinct(Sessions(entries)) && Updated(entries, old(entries), id, state)
      ensures |entries| > |old(entries)| ==> entries[|entries| - 1].session == id
    {
      var i := IndexOf(entries, id);
      if i < |entries| {
        assert Sessions(entries)[i] == id;
        entries := entries[i := Entry(id, state)];
        assert Sessions(entries) == Sessions(old(entries));
        assert forall j | 0 <= j < |entries| :: Sessions(entries)[j] == entries[j].session;
      } else {
        entries := entries + [Entry(id, state)];
        assert Sessions(entries) == Sessions(old(entries)) + [id];
        assert Sessions(entries)[|entries| - 1] == id;
      }
    }

    /** Evicts the oldest while over the cap; `id` is the session just stored. */
    method Trim(ghost id: string)
      requires maxEntries >= 1 && |entries| <= maxEntries + 1 && Distinct(Sessions(entries))
      requires latest.Some? && latest.value in Sessions(entries) && id in Sessions(entries)
      requires |entries| > maxEntries ==> entries[|entries| - 1].session == id
      modifies this
      ensures entries == if |old(entries)| > maxEntries then old(entries)[1..] else old(entries)
      ensures Sessions(entries) == if |old(entries)| > maxEntries then Sessions(old(entries))[1..] else Sessions(old(entries))
      ensures id in Sessions(entries) && Distinct(Sessions(entries))
      ensures latest == if old(latest).value in Sessions(entries) then old(latest) else Some(id)
    {
      while |entries| > maxEntries
        invariant (entries == old(entries) && latest == old(latest))
                  || (|old(entries)| > maxEntries && entries == old(entries)[1..]
                      && latest == if old(latest).value == old(entries)[0].session then Some(id) else old(latest))
        decreases |entries|
      {
        hide Distinct, Sessions;
        var evicted := entries[0].session;
        entries := entries[1..];
        if Some(evicted) == latest {
          latest := if entries == [] then None else Some(entries[|entries| - 1].session);
        }
      }
      if |old(entries)| > maxEntries {
        DropOldest(old(entries), id);
      }
    }

    static lemma DropOldest(before: seq<Entry<T>>, id: string)
      requires |before| > 1 && Distinct(Sessions(before)) && before[|before| - 1].session == id
      ensures var ids := Sessions(before[1..]);
              && ids == Sessions(before)[1..] && id in ids && Distinct(ids)
              && forall s | s in Sessions(before) :: s in ids <==> s != before[0].session
    {
      var ids := Sessions(before[1..]);
      assert ids[|ids| - 1] == id;
      assert Sessions(before) == [before[0].session] + ids;
    }

    /** A new start that is marked latest is shown and kept; a late update from an older run neither moves nor evicts
        anything and leaves the display alone; the display changes by itself only when its session is evicted. */
    method Put(id: string, state: T, makeLatest: bool) returns (stored: bool)
      requires Valid()
      modifies this
      ensures Valid()
      ensures stored <==> id != ""
      ensures !stored ==> entries == old(entries) && latest == old(latest)
      ensures stored ==> Sessions(entries) == Retained(Sessions(old(entries)), id, maxEntries)
      ensures stored ==> Updated(entries, old(entries), id, state)
      ensures stored ==> latest == if makeLatest || old(latest).None? || old(latest).value !in Sessions(entries)
                                   then Some(id) else old(latest)
    {
      hide Distinct, Updated, Sessions, Retained;
      if id == "" {
        return false;
      }
      ghost var before := entries;
      Insert(id, state);
      if makeLatest || latest.None? {
        latest := Some(id);
      }
      ghost var full := entries;
      Trim(id);
      FewerUpdated(full, before, id, state);
      RetainedIs(Sessions(before), Sessions(full), id, maxEntries);
      stored := true;
    }

    static lemma RetainedIs(ids: seq<string>, full: seq<string>, id: string, max: nat)
      requires max >= 1 && |ids| <= max && full == ids + if id in ids then [] else [id]
      ensures Retained(ids, id, max) == if |full| > max then full[1..] else full
    {
    }

    static lemma FewerUpdated(full: seq<Entry<T>>, before: seq<Entry<T>>, id: string, state: T)
      requires Updated(full, before, id, state)
      ensures full != [] ==> Updated(full[1..], before, id, state)
    {
    }

    method Get(id: string) returns (state: Option<T>)
      requires Valid()
      ensures state.Some? <==> id in Sessions(entries)
      ensures state.Some? ==> Entry(id, state.value) in entries
    {
      var i := IndexOf(entries, id);
      state := if i < |entries| then Some(entries[i].state) else None;
    }

    method Latest() returns (state: Option<T>)
      requires Valid()
      ensures state.Some? <==> entries != []
      ensures state.Some? ==> latest.Some? && Entry(latest.value, state.value) in entries
    {
      if latest.None? {
        return None;
      }
      state := Get(latest.value);
    }

    method Clear()
      modifies this
      requires Valid()
      ensures Valid() && entries == []
    {
      entries, latest := [], None;
    }
  }
}
