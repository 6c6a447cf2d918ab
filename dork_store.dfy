/**
 * The backend's in-memory store of saved dorks: the `dorks` slice and the
 * `nextID` counter, with `addDork`, `getAllDorks` and `deleteDorkByID`, and
 * the status codes of the save and delete handlers built on them.
 *
 * Each operation runs on its own, one after another (the read-write mutex
 * that serialises them is not modelled).
 */
module DorkStore {
  import opened Wrappers

  /** A saved dork as the store keeps it and the API sends it. */
  datatype SavedDork = SavedDork(id: int, name: string, query: string, description: string)

  /** Some record in `s` carries `id`. */
  predicate HasId(s: seq<SavedDork>, id: int) {
    exists k :: 0 <= k < |s| && s[k].id == id
  }

  /** IDs rise strictly from the front of the sequence to the back. */
  predicate IdsIncreasing(s: seq<SavedDork>) {
    forall i, j :: 0 <= i < j < |s| ==> s[i].id < s[j].id
  }

  /** Every ID in `s` is one the counter has already handed out. */
  predicate IdsIssuedBefore(s: seq<SavedDork>, next: int) {
    forall k :: 0 <= k < |s| ==> 1 <= s[k].id < next
  }

  /** The position the range loop of `deleteDorkByID` stops at: the first record with `id`. */
  function IndexOf(s: seq<SavedDork>, id: int): (r: Option<nat>)
    ensures r.Some? ==> r.value < |s| && s[r.value].id == id
    ensures r.Some? ==> forall k :: 0 <= k < r.value ==> s[k].id != id
    ensures r.None? <==> !HasId(s, id)
  {
    if s == [] then None
    else if s[0].id == id then Some(0)
    else match IndexOf(s[1..], id)
      case None => None
      case Some(k) => Some(k + 1)
  }

  /** The sequence `deleteDorkByID` leaves: the first record with `id` cut out, or `s` itself. */
  function Remove(s: seq<SavedDork>, id: int): seq<SavedDork> {
    match IndexOf(s, id)
    case None => s
    case Some(i) => s[..i] + s[i + 1..]
  }

  /** An independent reference: every record whose ID is not `id`, in order. */
  function WithoutId(s: seq<SavedDork>, id: int): (r: seq<SavedDork>)
    ensures !HasId(r, id)
    ensures forall d :: d in r ==> d in s
  {
    if s == [] then []
    else if s[0].id == id then WithoutId(s[1..], id)
    else [s[0]] + WithoutId(s[1..], id)
  }

  /** Filtering out an ID nobody carries changes nothing. */
  lemma {:induction false} WithoutAbsentId(s: seq<SavedDork>, id: int)
    requires !HasId(s, id)
    ensures WithoutId(s, id) == s
  {
    if s != [] {
      assert !HasId(s[1..], id) by {
        forall k | 0 <= k < |s[1..]| ensures s[1..][k].id != id {
          assert s[1..][k] == s[k + 1];
        }
      }
      WithoutAbsentId(s[1..], id);
      assert s == [s[0]] + s[1..];
    }
  }

  /**
   * With IDs increasing, cutting out the first match removes exactly the
   * records with that ID and keeps all others in their order.
   */
  lemma {:induction false} RemoveIsFilter(s: seq<SavedDork>, id: int)
    requires IdsIncreasing(s)
    ensures Remove(s, id) == WithoutId(s, id)
  {
    if s != [] {
      var tail := s[1..];
      assert IdsIncreasing(tail) by {
        forall i, j | 0 <= i < j < |tail| ensures tail[i].id < tail[j].id {
          assert tail[i] == s[i + 1] && tail[j] == s[j + 1];
        }
      }
      if s[0].id == id {
        assert !HasId(tail, id) by {
          forall k | 0 <= k < |tail| ensures tail[k].id != id {
            assert tail[k] == s[k + 1];
          }
        }
        WithoutAbsentId(tail, id);
      } else {
        RemoveIsFilter(tail, id);
        match IndexOf(tail, id)
        case None =>
        case Some(k) =>
          assert s[..k + 1] + s[k + 2..] == [s[0]] + (tail[..k] + tail[k + 1..]);
      }
    }
  }

  /** Cutting one record out keeps the IDs increasing and issued. */
  lemma CutKeepsInvariant(s: seq<SavedDork>, i: nat, next: int)
    requires i < |s|
    requires IdsIncreasing(s) && IdsIssuedBefore(s, next)
    ensures IdsIncreasing(s[..i] + s[i + 1..]) && IdsIssuedBefore(s[..i] + s[i + 1..], next)
  {
    var r := s[..i] + s[i + 1..];
    forall p | 0 <= p < |r| ensures r[p] == s[if p < i then p else p + 1] {
    }
  }

  /** Removing keeps the store's invariant: IDs still increasing, still issued. */
  lemma RemoveKeepsInvariant(s: seq<SavedDork>, id: int, next: int)
    requires IdsIncreasing(s) && IdsIssuedBefore(s, next)
    ensures IdsIncreasing(Remove(s, id)) && IdsIssuedBefore(Remove(s, id), next)
  {
    match IndexOf(s, id)
    case None =>
    case Some(i) => CutKeepsInvariant(s, i, next);
  }

  /** With IDs increasing, a removed ID is gone: a second delete finds nothing. */
  lemma RemovedIdIsGone(s: seq<SavedDork>, id: int)
    requires IdsIncreasing(s)
    ensures !HasId(Remove(s, id), id)
    ensures |Remove(s, id)| == if HasId(s, id) then |s| - 1 else |s|
  {
    RemoveIsFilter(s, id);
  }

  /** The in-memory store: the `dorks` slice and the `nextID` counter. */
  class Store {
    var dorks: seq<SavedDork>
    var nextID: int
    /** Every ID the counter has handed out so far, stored or deleted. */
    ghost var issued: set<int>

    /** The store's invariant: IDs strictly increasing, each already issued. */
    ghost predicate Valid()
      reads this
    {
      && nextID >= 1
      && IdsIncreasing(dorks)
      && IdsIssuedBefore(dorks, nextID)
      && (forall k :: k in issued <==> 1 <= k < nextID)
    }

    /** The package-level state at start-up: no dorks, `nextID = 1`. */
    constructor ()
      ensures Valid()
      ensures dorks == [] && nextID == 1 && issued == {}
    {
      dorks := [];
      nextID := 1;
      issued := {};
    }

    /**
     * `addDork`: the record gets the counter's value as its ID, whatever ID
     * it came with; the counter moves on; the record goes at the end.
     */
    method AddDork(dork: SavedDork) returns (saved: SavedDork)
      requires Valid()
      modifies this
      ensures Valid()
      ensures saved == dork.(id := old(nextID))
      ensures saved.id !in old(issued) && issued == old(issued) + {saved.id}
      ensures nextID == old(nextID) + 1
      ensures dorks == old(dorks) + [saved]
    {
      saved := dork.(id := nextID);
      nextID := nextID + 1;
      dorks := dorks + [saved];
      issued := issued + {saved.id};
    }

    /** `getAllDorks`: a copy of the stored records, the store untouched. */
    method GetAllDorks() returns (result: seq<SavedDork>)
      ensures result == dorks
      ensures Valid() ==> IdsIncreasing(result)
    {
      result := dorks;
    }

    /**
     * `deleteDorkByID`: walk the records in order; at the first whose ID
     * matches, cut it out and report success; past the end, report failure.
     */
    method DeleteDorkByID(id: int) returns (found: bool)
      requires Valid()
      modifies this`dorks
      ensures Valid()
      ensures found == HasId(old(dorks), id)
      ensures dorks == Remove(old(dorks), id)
      ensures !found ==> dorks == old(dorks)
      ensures !HasId(dorks, id)
      ensures nextID == old(nextID) && issued == old(issued)
    {
      RemoveKeepsInvariant(dorks, id, nextID);
      RemovedIdIsGone(dorks, id);
      var i := 0;
      while i < |dorks|
        invariant 0 <= i <= |dorks|
        invariant dorks == old(dorks)
        invariant forall k :: 0 <= k < i ==> dorks[k].id != id
      {
        if dorks[i].id == id {
          dorks := dorks[..i] + dorks[i + 1..];
          return true;
        }
        i := i + 1;
      }
      return false;
    }
  }

  /** The status `saveDork` answers with once the body has bound: always 201. */
  method SaveHandler(store: Store, dork: SavedDork) returns (status: int, saved: SavedDork)
    requires store.Valid()
    modifies store
    ensures store.Valid()
    ensures status == 201
    ensures saved == dork.(id := old(store.nextID))
    ensures store.dorks == old(store.dorks) + [saved] && store.nextID == old(store.nextID) + 1
  {
    saved := store.AddDork(dork);
    status := 201;
  }

  /** The status `deleteDork` answers with once the ID has parsed: 200 when found, else 404. */
  method DeleteHandler(store: Store, id: int) returns (status: int)
    requires store.Valid()
    modifies store
    ensures store.Valid()
    ensures status == if HasId(old(store.dorks), id) then 200 else 404
    ensures store.dorks == Remove(old(store.dorks), id) && store.nextID == old(store.nextID)
  {
    var found := store.DeleteDorkByID(id);
    status := if found then 200 else 404;
  }
}
