/**
 * The meditation progress store (store/useMeditationStore.ts): favourites,
 * the play history, per-meditation progress and the admin edits of the
 * meditation catalogue.  The clock reading `Date.now()` is a parameter.
 */
module Meditations {
  import opened Options
  import opened Records
  import opened Catalog

  /** One `{ id, lastPlayed }` entry of `history`; `lastPlayed` is in milliseconds. */
  datatype HistoryEntry = HistoryEntry(id: string, lastPlayed: int)

  function EntryId(e: HistoryEntry): string { e.id }

  // ---- History --------------------------------------------------------------

  /**
   * `history` after `addToHistory(id)` at time `now`: the new entry first,
   * then the old history without its entries for `id`.
   */
  function Played(history: seq<HistoryEntry>, id: string, now: int): (r: seq<HistoryEntry>)
    ensures |r| > 0 && r[0] == HistoryEntry(id, now)
    ensures r[1..] == Without(history, EntryId, id)
    ensures CountKey(r, EntryId, id) == 1
    ensures |r| == |history| - CountKey(history, EntryId, id) + 1
    ensures DistinctKeys(history, EntryId) ==> DistinctKeys(r, EntryId)
  {
    WithoutLength(history, EntryId, id);
    PlayedKeepsDistinctKeys(history, id, now);
    [HistoryEntry(id, now)] + Without(history, EntryId, id)
  }

  /** Putting a fresh entry for `id` before the history filtered of `id` repeats no id. */
  lemma PlayedKeepsDistinctKeys(history: seq<HistoryEntry>, id: string, now: int)
    ensures DistinctKeys(history, EntryId) ==> DistinctKeys([HistoryEntry(id, now)] + Without(history, EntryId, id), EntryId)
  {
    var rest := Without(history, EntryId, id);
    var r := [HistoryEntry(id, now)] + rest;
    if DistinctKeys(history, EntryId) {
      WithoutKeepsDistinctKeys(history, EntryId, id);
      forall i, j | 0 <= i < j < |r| ensures EntryId(r[i]) != EntryId(r[j]) {
        assert r[j] == rest[j - 1] && r[j] in rest;
        if i > 0 {
          assert r[i] == rest[i - 1];
        }
      }
    }
  }

  /** `getLastPlayed(id)`: the time of the first, that is most recent, entry for `id`. */
  function LastPlayed(history: seq<HistoryEntry>, id: string): (r: Option<int>)
    ensures r.None? <==> forall e :: e in history ==> e.id != id
    ensures r.Some? ==>
      exists i :: 0 <= i < |history| && history[i] == HistoryEntry(id, r.value) &&
                  forall j :: 0 <= j < i ==> history[j].id != id
  {
    match FindFirst(history, EntryId, id)
    case Some(e) => Some(e.lastPlayed)
    case None => None
  }

  /** Right after playing `id` at `now`, its last play is `now`; every other id keeps its last play. */
  lemma LastPlayedAfterPlay(history: seq<HistoryEntry>, id: string, now: int, other: string)
    ensures LastPlayed(Played(history, id, now), other) == if other == id then Some(now) else LastPlayed(history, other)
  {
    var r := Played(history, id, now);
    if other != id {
      FindFirstWithoutOther(history, EntryId, id, other);
      assert r == [r[0]] + r[1..];
      FindFirstAppend([r[0]], r[1..], EntryId, other);
    }
  }

  /** Playing the same id twice leaves one entry for it, with the later time, at the head. */
  lemma PlayedTwice(history: seq<HistoryEntry>, id: string, t1: int, t2: int)
    ensures Played(Played(history, id, t1), id, t2) == Played(history, id, t2)
  {
    var once := Played(history, id, t1);
    assert once == [HistoryEntry(id, t1)] + Without(history, EntryId, id);
    WithoutAppend([HistoryEntry(id, t1)], Without(history, EntryId, id), EntryId, id);
    WithoutIdempotent(history, EntryId, id);
    assert Without([HistoryEntry(id, t1)], EntryId, id) == [];
  }

  // ---- Progress -------------------------------------------------------------

  /** `progress` after `updateProgress(id, p)`: no clamping. */
  function StoreProgress(m: map<string, real>, id: string, p: real): (r: map<string, real>)
    ensures r.Keys == m.Keys + {id}
    ensures r[id] == p
    ensures forall k :: k in m && k != id ==> r[k] == m[k]
  {
    m[id := p]
  }

  /** `getProgress(id)`, the `progress[id] || 0` of the store: the stored value, or 0 when there is none. */
  function ProgressOf(m: map<string, real>, id: string): (v: real)
    ensures id in m ==> v == m[id]
    ensures id !in m ==> v == 0.0
  {
    if id in m && m[id] != 0.0 then m[id] else 0.0
  }

  /** Reading back after a write gives the value written; the last write wins; other ids are unaffected. */
  lemma ProgressReadBack(m: map<string, real>, id: string, p: real, q: real, other: string)
    ensures ProgressOf(StoreProgress(m, id, p), other) == if other == id then p else ProgressOf(m, other)
    ensures StoreProgress(StoreProgress(m, id, p), id, q) == StoreProgress(m, id, q)
  {
  }

  // ---- Catalogue edits ------------------------------------------------------

  function MeditationMerger(d: MeditationPatch): Meditation -> Meditation {
    (m: Meditation) => MergeMeditation(m, d)
  }

  /** `allMeditations` after `updateMeditation(id, d)`. */
  function MeditationsUpdated(ms: seq<Meditation>, id: string, d: MeditationPatch): (r: seq<Meditation>)
    ensures |r| == |ms|
    ensures forall i :: 0 <= i < |ms| ==> r[i] == if ms[i].id == id then MergeMeditation(ms[i], d) else ms[i]
  {
    Replace(ms, MeditationId, id, MeditationMerger(d))
  }

  /** After `updateMeditation(id, d)` with a patch that keeps the id, `getMeditation(id)` is the merged old match. */
  lemma FindUpdatedMeditation(ms: seq<Meditation>, id: string, d: MeditationPatch, other: string)
    requires d.id.None?
    ensures FindFirst(MeditationsUpdated(ms, id, d), MeditationId, other) ==
      match FindFirst(ms, MeditationId, other)
      case Some(m) => if other == id then Some(MergeMeditation(m, d)) else Some(m)
      case None => None
  {
    forall m: Meditation ensures MeditationId(MeditationMerger(d)(m)) == MeditationId(m) {
    }
    FindFirstReplace(ms, MeditationId, id, MeditationMerger(d), other);
  }

  // ---- The store ------------------------------------------------------------

  class MeditationStore {
    var favorites: seq<string>
    var history: seq<HistoryEntry>
    var progress: map<string, real>
    var allMeditations: seq<Meditation>

    /** What every action keeps: no favourite twice, at most one history entry per id. */
    ghost predicate Valid()
      reads this
    {
      NoDup(favorites) && DistinctKeys(history, EntryId)
    }

    /** A fresh store over the seed catalogue `catalog`. */
    constructor (catalog: seq<Meditation>)
      ensures Valid()
      ensures favorites == [] && history == [] && progress == map[] && allMeditations == catalog
    {
      favorites := [];
      history := [];
      progress := map[];
      allMeditations := catalog;
    }

    /** `includes`. */
    function IsFavorite(id: string): (b: bool)
      reads this
      ensures b <==> exists i :: 0 <= i < |favorites| && favorites[i] == id
    {
      id in favorites
    }

    function GetLastPlayed(id: string): (r: Option<int>)
      reads this
      ensures r.None? <==> forall e :: e in history ==> e.id != id
      ensures r.Some? ==>
        exists i :: 0 <= i < |history| && history[i] == HistoryEntry(id, r.value) &&
                    forall j :: 0 <= j < i ==> history[j].id != id
    {
      LastPlayed(history, id)
    }

    function GetProgress(id: string): (v: real)
      reads this
      ensures v == if id in progress then progress[id] else 0.0
    {
      ProgressOf(progress, id)
    }

    /** The first meditation with the id, if any. */
    function GetMeditation(id: string): (r: Option<Meditation>)
      reads this
      ensures r.None? <==> forall m :: m in allMeditations ==> m.id != id
      ensures r.Some? ==>
        exists i :: 0 <= i < |allMeditations| && allMeditations[i] == r.value && r.value.id == id &&
                    forall j :: 0 <= j < i ==> allMeditations[j].id != id
    {
      FindFirst(allMeditations, MeditationId, id)
    }

    /** With one history entry per id, the last play of an id is the time of its entry. */
    lemma LastPlayedIsTheEntry(id: string, t: int)
      requires Valid()
      requires HistoryEntry(id, t) in history
      ensures GetLastPlayed(id) == Some(t)
    {
      var k :| 0 <= k < |history| && history[k] == HistoryEntry(id, t);
      var r := GetLastPlayed(id);
      assert history[k] in history;
      var i :| 0 <= i < |history| && history[i] == HistoryEntry(id, r.value) &&
               forall j :: 0 <= j < i ==> history[j].id != id;
      assert EntryId(history[i]) == EntryId(history[k]);
    }

    method AddToFavorites(id: string)
      modifies this
      ensures favorites == AddIfAbsent(old(favorites), id)
      ensures IsFavorite(id)
      ensures history == old(history) && progress == old(progress) && allMeditations == old(allMeditations)
      ensures old(Valid()) ==> Valid()
    {
      favorites := AddIfAbsent(favorites, id);
    }

    method RemoveFromFavorites(id: string)
      modifies this
      ensures favorites == Without(old(favorites), Ident, id)
      ensures !IsFavorite(id)
      ensures forall x :: x != id ==> (IsFavorite(x) <==> old(IsFavorite(x)))
      ensures history == old(history) && progress == old(progress) && allMeditations == old(allMeditations)
      ensures old(Valid()) ==> Valid()
    {
      if Valid() {
        WithoutKeepsNoDup(favorites, Ident, id);
      }
      favorites := Without(favorites, Ident, id);
    }

    /** `Date.now()` is the parameter `now`. */
    method AddToHistory(id: string, now: int)
      modifies this
      ensures history == Played(old(history), id, now)
      ensures GetLastPlayed(id) == Some(now)
      ensures forall other :: other != id ==> GetLastPlayed(other) == old(GetLastPlayed(other))
      ensures favorites == old(favorites) && progress == old(progress) && allMeditations == old(allMeditations)
      ensures old(Valid()) ==> Valid()
    {
      ghost var before := history;
      history := Played(history, id, now);
      forall other | true ensures LastPlayed(history, other) == if other == id then Some(now) else LastPlayed(before, other) {
        LastPlayedAfterPlay(before, id, now, other);
      }
    }

    method UpdateProgress(id: string, p: real)
      modifies this
      ensures progress == StoreProgress(old(progress), id, p)
      ensures GetProgress(id) == p
      ensures favorites == old(favorites) && history == old(history) && allMeditations == old(allMeditations)
      ensures old(Valid()) ==> Valid()
    {
      progress := StoreProgress(progress, id, p);
    }

    method AddMeditation(m: Meditation)
      modifies this
      ensures allMeditations == old(allMeditations) + [m]
      ensures favorites == old(favorites) && history == old(history) && progress == old(progress)
      ensures old(Valid()) ==> Valid()
    {
      allMeditations := allMeditations + [m];
    }

    method UpdateMeditation(id: string, d: MeditationPatch)
      modifies this
      ensures allMeditations == MeditationsUpdated(old(allMeditations), id, d)
      ensures favorites == old(favorites) && history == old(history) && progress == old(progress)
      ensures old(Valid()) ==> Valid()
    {
      allMeditations := MeditationsUpdated(allMeditations, id, d);
    }

    /** Favourites, history and progress that name the deleted meditation stay behind. */
    method DeleteMeditation(id: string)
      modifies this
      ensures allMeditations == Without(old(allMeditations), MeditationId, id)
      ensures GetMeditation(id) == None
      ensures favorites == old(favorites) && history == old(history) && progress == old(progress)
      ensures old(Valid()) ==> Valid()
    {
      allMeditations := Without(allMeditations, MeditationId, id);
    }
  }
}
