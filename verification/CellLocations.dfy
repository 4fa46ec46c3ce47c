/** The table of configured cell positions: an ordered list searched in two passes, first for an
    exact match and then for a partial one. The same search decides what is overwritten and removed. */
module CellLocations {
  import opened CellIds

  datatype CellLocation = CellLocation(cellId: CellId, lat: int, lon: int)

  // ----- The table as a value -----

  /** Index of the first entry matching id, or the length of the table. */
  function Scan(t: seq<CellLocation>, id: CellId, exact: bool): (k: nat)
    ensures k <= |t|
    ensures k < |t| ==> Matches(t[k].cellId, id, exact)
    ensures forall j :: 0 <= j < k ==> !Matches(t[j].cellId, id, exact)
  {
    if |t| == 0 || Matches(t[0].cellId, id, exact) then 0 else 1 + Scan(t[1..], id, exact)
  }

  /** The two-pass lookup. */
  function Lookup(t: seq<CellLocation>, id: CellId): (k: nat)
    ensures k <= |t|
    ensures k < |t| ==> Matches(t[k].cellId, id, true) || Matches(t[k].cellId, id, false)
  {
    var e := Scan(t, id, true);
    if e < |t| then e else Scan(t, id, false)
  }

  function Set(t: seq<CellLocation>, id: CellId, lat: int, lon: int): seq<CellLocation> {
    var k := Lookup(t, id);
    if k < |t| then t[k := t[k].(lat := lat, lon := lon)] else t + [CellLocation(id, lat, lon)]
  }

  function Remove(t: seq<CellLocation>, id: CellId): seq<CellLocation> {
    var k := Lookup(t, id);
    if k < |t| then t[..k] + t[k + 1..] else t
  }

  /** Entries are created by commands that name at least a LAC and a CI. */
  predicate NamesCell(id: CellId) {
    id.Cgi? || id.LacCi?
  }

  /** No two entries match each other, not even partially. */
  ghost predicate Disjoint(t: seq<CellLocation>) {
    && (forall i :: 0 <= i < |t| ==> NamesCell(t[i].cellId))
    && (forall i, j :: 0 <= i < j < |t| ==> !Matches(t[i].cellId, t[j].cellId, false))
  }

  lemma ScanIsFirst(t: seq<CellLocation>, id: CellId, exact: bool, k: nat)
    requires k <= |t|
    requires k < |t| ==> Matches(t[k].cellId, id, exact)
    requires forall j :: 0 <= j < k ==> !Matches(t[j].cellId, id, exact)
    ensures Scan(t, id, exact) == k
  {
  }

  /** Setting a position keeps the table free of overlaps: a new entry is only appended when nothing
      matches it, and an overwritten entry keeps its identifier. */
  lemma SetKeepsDisjoint(t: seq<CellLocation>, id: CellId, lat: int, lon: int)
    requires Disjoint(t) && NamesCell(id)
    ensures Disjoint(Set(t, id, lat, lon))
  {
    var t' := Set(t, id, lat, lon);
    var k := Lookup(t, id);
    forall i, j | 0 <= i < j < |t'|
      ensures !Matches(t'[i].cellId, t'[j].cellId, false)
    {
      if k == |t| && j == |t| {
        assert !Matches(t[i].cellId, id, false);
      } else {
        assert !Matches(t[i].cellId, t[j].cellId, false);
      }
    }
  }

  lemma RemoveKeepsDisjoint(t: seq<CellLocation>, id: CellId)
    requires Disjoint(t)
    ensures Disjoint(Remove(t, id))
  {
    var t' := Remove(t, id);
    var k := Lookup(t, id);
    forall i, j | 0 <= i < j < |t'|
      ensures !Matches(t'[i].cellId, t'[j].cellId, false)
    {
      var i0 := if i < k then i else i + 1;
      var j0 := if j < k then j else j + 1;
      if k < |t| {
        assert !Matches(t[i0].cellId, t[j0].cellId, false);
      }
    }
  }

  lemma Apart(t: seq<CellLocation>, i: nat, j: nat)
    requires Disjoint(t)
    requires i < |t| && j < |t| && i != j
    ensures !Matches(t[i].cellId, t[j].cellId, false)
  {
    var lo, hi := if i < j then i else j, if i < j then j else i;
    assert !Matches(t[lo].cellId, t[hi].cellId, false);
  }

  /** Without overlaps, an entry for id itself is the only one that matches it, so it is found. */
  lemma ExactIsUnique(t: seq<CellLocation>, id: CellId, e: nat)
    requires Disjoint(t)
    requires e < |t| && t[e].cellId == id
    ensures Lookup(t, id) == e
    ensures forall i :: 0 <= i < |t| && i != e ==> !Matches(t[i].cellId, id, false)
  {
    forall i | 0 <= i < |t| && i != e ensures !Matches(t[i].cellId, id, false) {
      Apart(t, i, e);
    }
    ScanIsFirst(t, id, true, e);
  }

  /** Without overlaps the two passes amount to one: the first partial match is the answer. */
  lemma LookupIsOneScan(t: seq<CellLocation>, id: CellId)
    requires Disjoint(t)
    ensures Lookup(t, id) == Scan(t, id, false)
  {
    var e := Scan(t, id, true);
    if e < |t| {
      ExactIsUnique(t, id, e);
      ScanIsFirst(t, id, false, e);
    }
  }

  /** A full CGI matches at most one entry, so the order of the table does not matter to it. */
  lemma CgiMatchesAtMostOne(t: seq<CellLocation>, id: CellId, i: nat, j: nat)
    requires Disjoint(t) && id.Cgi?
    requires i < |t| && j < |t| && i != j
    ensures !(Matches(t[i].cellId, id, false) && Matches(t[j].cellId, id, false))
  {
    Apart(t, i, j);
  }

  /** After setting a position, looking the same identifier up finds the entry that was written, at
      the place the search found before (or at the end), with every other entry as it was. */
  lemma SetThenLookup(t: seq<CellLocation>, id: CellId, lat: int, lon: int)
    requires NamesCell(id)
    ensures var t' := Set(t, id, lat, lon);
            var k := Lookup(t, id);
            && Lookup(t', id) == k < |t'| == (if k < |t| then |t| else |t| + 1)
            && t'[k].lat == lat && t'[k].lon == lon
            && t'[k].cellId == (if k < |t| then t[k].cellId else id)
            && forall i :: 0 <= i < |t| && i != k ==> t'[i] == t[i]
  {
    var t' := Set(t, id, lat, lon);
    var e := Scan(t, id, true);
    var l := Scan(t, id, false);
    var k := Lookup(t, id);
    if e < |t| {
      ScanIsFirst(t', id, true, e);
    } else if l < |t| {
      forall j | 0 <= j < |t'| ensures !Matches(t'[j].cellId, id, true) {
        assert !Matches(t[j].cellId, id, true);
      }
      ScanIsFirst(t', id, true, |t'|);
      ScanIsFirst(t', id, false, l);
    } else {
      forall j | 0 <= j < |t| ensures !Matches(t'[j].cellId, id, true) {
        assert !Matches(t[j].cellId, id, true);
      }
      ScanIsFirst(t', id, true, |t|);
    }
  }

  /** Removing deletes exactly the entry the search finds, and nothing when it finds none. */
  lemma RemoveDeletesOne(t: seq<CellLocation>, id: CellId)
    ensures var t' := Remove(t, id);
            var k := Lookup(t, id);
            && |t'| == (if k < |t| then |t| - 1 else |t|)
            && (forall i :: 0 <= i < k ==> t'[i] == t[i])
            && (forall i :: k <= i < |t'| ==> t'[i] == t[i + 1])
  {
    var t' := Remove(t, id);
    var k := Lookup(t, id);
    if k < |t| {
      assert forall i :: 0 <= i < k ==> t'[i] == t[i];
    }
  }

  /** In a table without overlaps, an identifier that was configured itself is unknown once removed:
      no other entry covers for it. */
  lemma RemoveThenLookup(t: seq<CellLocation>, id: CellId, e: nat)
    requires Disjoint(t)
    requires e < |t| && t[e].cellId == id
    ensures |Remove(t, id)| == |t| - 1
    ensures Lookup(Remove(t, id), id) == |t| - 1
  {
    var t' := Remove(t, id);
    ExactIsUnique(t, id, e);
    RemoveDeletesOne(t, id);
    forall j | 0 <= j < |t'| ensures !Matches(t'[j].cellId, id, false) {
      var i := if j < e then j else j + 1;
      assert t'[j] == t[i] && i != e;
    }
    ScanIsFirst(t', id, true, |t'|);
    ScanIsFirst(t', id, false, |t'|);
  }

  // ----- The table as the program keeps it -----

  class CellTable {
    var entries: seq<CellLocation>

    constructor ()
      ensures entries == []
    {
      entries := [];
    }

    /** Position of the entry to use for id; the length of the list stands for the null result. */
    method Find(id: CellId) returns (k: nat)
      ensures k == Lookup(entries, id)
    {
      k := 0;
      while k < |entries|
        invariant k <= |entries|
        invariant forall j :: 0 <= j < k ==> !Matches(entries[j].cellId, id, true)
      {
        if Matches(entries[k].cellId, id, true) {
          ScanIsFirst(entries, id, true, k);
          return;
        }
        k := k + 1;
      }
      ScanIsFirst(entries, id, true, k);
      k := 0;
      while k < |entries|
        invariant k <= |entries|
        invariant forall j :: 0 <= j < k ==> !Matches(entries[j].cellId, id, false)
      {
        if Matches(entries[k].cellId, id, false) {
          ScanIsFirst(entries, id, false, k);
          return;
        }
        k := k + 1;
      }
      ScanIsFirst(entries, id, false, k);
    }

    method FindOrCreate(id: CellId) returns (k: nat)
      modifies this
      ensures k == Lookup(old(entries), id) < |entries|
      ensures entries == if k < |old(entries)| then old(entries) else old(entries) + [CellLocation(id, 0, 0)]
    {
      k := Find(id);
      if k == |entries| {
        entries := entries + [CellLocation(id, 0, 0)];
      }
    }

    method SetLocation(id: CellId, lat: int, lon: int)
      modifies this
      ensures entries == Set(old(entries), id, lat, lon)
    {
      var k := FindOrCreate(id);
      entries := entries[k := entries[k].(lat := lat)];
      entries := entries[k := entries[k].(lon := lon)];
    }

    method RemoveLocation(id: CellId) returns (found: bool)
      modifies this
      ensures entries == Remove(old(entries), id)
      ensures found <==> Lookup(old(entries), id) < |old(entries)|
    {
      var k := Find(id);
      if k == |entries| {
        return false;
      }
      entries := entries[..k] + entries[k + 1..];
      return true;
    }
  }
}
