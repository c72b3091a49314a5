/** The culvert input screen's list of stream-width measurements: entries
    are added with a fresh id, removed unless only one is left, and edited
    by id. */
module StreamWidths {
  import opened Seqs

  datatype StreamWidth = StreamWidth(id: int, value: string)

  /** The screen starts with one empty measurement, id 1. */
  const InitialStreamWidths: seq<StreamWidth> := [StreamWidth(1, "")]

  /** `Math.max(...ids)` over a non-empty list. */
  function MaxId(ws: seq<StreamWidth>): (m: int)
    requires |ws| > 0
    ensures forall i :: 0 <= i < |ws| ==> ws[i].id <= m
    ensures exists i :: 0 <= i < |ws| && ws[i].id == m
  {
    if |ws| == 1 then ws[0].id
    else
      var rest := MaxId(ws[1..]);
      assert forall i :: 1 <= i < |ws| ==> ws[i] == ws[1..][i - 1];
      if ws[0].id >= rest then ws[0].id else rest
  }

  /** The id `addStreamWidth` gives the new entry: one more than the largest
      id, or 1 for an empty list. */
  function NextId(ws: seq<StreamWidth>): (next: int)
    ensures forall i :: 0 <= i < |ws| ==> ws[i].id < next
    ensures |ws| == 0 ==> next == 1
    ensures |ws| > 0 ==> exists i :: 0 <= i < |ws| && ws[i].id == next - 1
  {
    if |ws| > 0 then MaxId(ws) + 1 else 1
  }

  /** addStreamWidth: appends an empty entry with an id above every existing
      one; the earlier entries are untouched. */
  function AddStreamWidth(ws: seq<StreamWidth>): (r: seq<StreamWidth>)
    ensures |r| == |ws| + 1
    ensures r[..|ws|] == ws
    ensures r[|ws|].value == ""
    ensures forall i :: 0 <= i < |ws| ==> ws[i].id < r[|ws|].id
    ensures r[|ws|].id == NextId(ws)
  {
    ws + [StreamWidth(NextId(ws), "")]
  }

  /** `item.id !== id`. */
  predicate KeepsEntry(id: int, w: StreamWidth) {
    w.id != id
  }

  /** removeStreamWidth: does nothing to a list of one; otherwise drops every
      entry with that id and keeps the rest in order. */
  function RemoveStreamWidth(ws: seq<StreamWidth>, id: int): (r: seq<StreamWidth>)
    ensures |ws| <= 1 ==> r == ws
    ensures |ws| > 1 ==> forall w :: w in r <==> w in ws && w.id != id
    ensures IsSubsequence(r, ws)
    ensures (forall i :: 0 <= i < |ws| ==> ws[i].id != id) ==> r == ws
    ensures |ws| > 1 ==> forall w :: multiset(r)[w] == if w.id != id then multiset(ws)[w] else 0
  {
    if |ws| > 1 then
      FilterCounts(w => KeepsEntry(id, w), ws);
      FilterIsSubsequence(w => KeepsEntry(id, w), ws);
      FilterFixedPoint(w => KeepsEntry(id, w), ws);
      Filter(w => KeepsEntry(id, w), ws)
    else
      SubsequenceOfItself(ws);
      ws
  }

  /** updateStreamWidth: the entries with that id take the new value; ids,
      order, length and every other entry stay. */
  function UpdateStreamWidth(ws: seq<StreamWidth>, id: int, value: string): (r: seq<StreamWidth>)
    ensures |r| == |ws|
    ensures forall i :: 0 <= i < |ws| ==> r[i].id == ws[i].id
    ensures forall i :: 0 <= i < |ws| && ws[i].id != id ==> r[i] == ws[i]
    ensures forall i :: 0 <= i < |ws| && ws[i].id == id ==> r[i].value == value
  {
    seq(|ws|, i requires 0 <= i < |ws| => if ws[i].id == id then StreamWidth(ws[i].id, value) else ws[i])
  }

  /** Ids are pairwise distinct. */
  predicate UniqueIds(ws: seq<StreamWidth>) {
    forall i, j :: 0 <= i < j < |ws| ==> ws[i].id != ws[j].id
  }

  /** What the screen keeps true of its list: never empty, ids distinct. */
  predicate ValidList(ws: seq<StreamWidth>) {
    |ws| >= 1 && UniqueIds(ws)
  }

  lemma InitialIsValid()
    ensures ValidList(InitialStreamWidths)
  {
  }

  /** A subsequence of a list with distinct ids has distinct ids. */
  lemma {:induction false} SubsequenceKeepsUniqueIds(sub: seq<StreamWidth>, ws: seq<StreamWidth>)
    requires UniqueIds(ws)
    requires IsSubsequence(sub, ws)
    ensures UniqueIds(sub)
    ensures forall w :: w in sub ==> w in ws
    decreases |ws|
  {
    if |sub| > 0 {
      assert |ws| > 0;
      assert UniqueIds(ws[1..]) by {
        forall i, j | 0 <= i < j < |ws[1..]| ensures ws[1..][i].id != ws[1..][j].id {
          assert ws[1..][i] == ws[i + 1] && ws[1..][j] == ws[j + 1];
        }
      }
      assert forall w :: w in ws[1..] ==> w in ws;
      if sub[0] == ws[0] {
        SubsequenceKeepsUniqueIds(sub[1..], ws[1..]);
        assert sub == [sub[0]] + sub[1..];
        forall j | 0 < j < |sub|
          ensures sub[0].id != sub[j].id
        {
          assert sub[j] == sub[1..][j - 1];
          assert sub[j] in sub[1..];
          assert sub[j] in ws[1..];
          var k :| 0 <= k < |ws[1..]| && ws[1..][k] == sub[j];
          assert ws[k + 1] == sub[j];
        }
        forall i, j | 0 < i < j < |sub|
          ensures sub[i].id != sub[j].id
        {
          assert sub[i] == sub[1..][i - 1] && sub[j] == sub[1..][j - 1];
        }
      } else {
        SubsequenceKeepsUniqueIds(sub, ws[1..]);
      }
    }
  }

  /** With distinct ids, removal drops at most one entry. */
  lemma {:induction false} RemoveDropsAtMostOne(ws: seq<StreamWidth>, id: int)
    requires UniqueIds(ws)
    ensures |Filter(w => KeepsEntry(id, w), ws)| >= |ws| - 1
  {
    var p := w => KeepsEntry(id, w);
    if |ws| > 0 {
      var rest := ws[1..];
      assert ws == [ws[0]] + rest;
      if ws[0].id == id {
        assert forall i :: 0 <= i < |rest| ==> p(rest[i]) by {
          forall i | 0 <= i < |rest| ensures p(rest[i]) {
            assert rest[i] == ws[i + 1];
          }
        }
        FilterFixedPoint(p, rest);
      } else {
        RemoveDropsAtMostOne(rest, id);
      }
    }
  }

  /** Adding keeps the list valid: the new id is above every old one. */
  lemma AddKeepsValid(ws: seq<StreamWidth>)
    requires ValidList(ws)
    ensures ValidList(AddStreamWidth(ws))
  {
    var r := AddStreamWidth(ws);
    assert forall i :: 0 <= i < |ws| ==> r[i] == ws[i];
  }

  /** Removing keeps the list valid: a list of one is left alone, and in a
      longer list at most one entry has the id. */
  lemma RemoveKeepsValid(ws: seq<StreamWidth>, id: int)
    requires ValidList(ws)
    ensures ValidList(RemoveStreamWidth(ws, id))
  {
    if |ws| > 1 {
      RemoveDropsAtMostOne(ws, id);
      SubsequenceKeepsUniqueIds(RemoveStreamWidth(ws, id), ws);
    }
  }

  /** Updating keeps the list valid: it never touches an id. */
  lemma UpdateKeepsValid(ws: seq<StreamWidth>, id: int, value: string)
    requires ValidList(ws)
    ensures ValidList(UpdateStreamWidth(ws, id, value))
  {
  }

  /** The three edits the screen offers. */
  datatype Edit = Add | Remove(id: int) | Update(id: int, value: string)

  function ApplyEdit(ws: seq<StreamWidth>, e: Edit): seq<StreamWidth> {
    match e
    case Add => AddStreamWidth(ws)
    case Remove(id) => RemoveStreamWidth(ws, id)
    case Update(id, value) => UpdateStreamWidth(ws, id, value)
  }

  function ApplyEdits(ws: seq<StreamWidth>, edits: seq<Edit>): seq<StreamWidth>
    decreases |edits|
  {
    if |edits| == 0 then ws else ApplyEdits(ApplyEdit(ws, edits[0]), edits[1..])
  }

  /** Whatever the user does, the list is never empty and its ids stay
      distinct. */
  lemma {:induction false} EditsKeepValid(ws: seq<StreamWidth>, edits: seq<Edit>)
    requires ValidList(ws)
    ensures ValidList(ApplyEdits(ws, edits))
    decreases |edits|
  {
    if |edits| > 0 {
      var next := ApplyEdit(ws, edits[0]);
      assert ValidList(next) by {
        match edits[0]
        case Add => AddKeepsValid(ws);
        case Remove(id) => RemoveKeepsValid(ws, id);
        case Update(id, value) => UpdateKeepsValid(ws, id, value);
      }
      EditsKeepValid(next, edits[1..]);
      assert ApplyEdits(ws, edits) == ApplyEdits(next, edits[1..]);
    }
  }

  /** Every list the screen can reach is valid. */
  lemma ReachableListsAreValid(edits: seq<Edit>)
    ensures ValidList(ApplyEdits(InitialStreamWidths, edits))
  {
    EditsKeepValid(InitialStreamWidths, edits);
  }

  /** The guard only counts entries: two entries sharing an id would both be
      removed, emptying the list. Distinct ids are what prevent it. */
  lemma RemoveCanEmptyWithDuplicateIds()
    ensures RemoveStreamWidth([StreamWidth(1, ""), StreamWidth(1, "")], 1) == []
  {
  }
}
