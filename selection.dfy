/** The lists of selected student IDs the admin screens keep: a toggle button
    (src/components/admin/NotesManagement.tsx), checkboxes
    (src/components/admin/TasksManagement.tsx), select all and clear all. */
module Selection {
  import opened Table
  import opened Records

  predicate Distinct(ids: seq<string>) {
    forall i, j :: 0 <= i < j < |ids| ==> ids[i] != ids[j]
  }

  function Elems(ids: seq<string>): set<string> {
    set x | x in ids
  }

  /** `ids.filter(x => x !== id)` */
  function Without(ids: seq<string>, id: string): (r: seq<string>)
    ensures id !in r
    ensures forall x :: x != id ==> (x in r <==> x in ids)
    ensures id !in ids ==> r == ids
  {
    var r := Where(ids, (x: string) => x != id);
    if id !in ids then
      WhereAll(ids, (x: string) => x != id);
      r
    else
      r
  }

  /** Removing keeps the other IDs distinct. */
  lemma {:induction false} WithoutDistinct(ids: seq<string>, id: string)
    requires Distinct(ids)
    ensures Distinct(Without(ids, id))
  {
    WhereKeepsDistinct(ids, (x: string) => x != id);
  }

  lemma {:induction false} WhereKeepsDistinct(ids: seq<string>, p: string -> bool)
    requires Distinct(ids)
    ensures Distinct(Where(ids, p))
    decreases |ids|
  {
    if ids != [] {
      var tail := ids[1..];
      assert Distinct(tail) by {
        forall i, j | 0 <= i < j < |tail| ensures tail[i] != tail[j] {
          assert tail[i] == ids[i + 1] && tail[j] == ids[j + 1];
        }
      }
      WhereKeepsDistinct(tail, p);
      var rest := Where(tail, p);
      assert ids[0] !in tail by {
        forall j | 0 <= j < |tail| ensures tail[j] != ids[0] {
          assert tail[j] == ids[j + 1];
        }
      }
      if p(ids[0]) {
        var r := [ids[0]] + rest;
        assert Where(ids, p) == r;
        forall i, j | 0 <= i < j < |r| ensures r[i] != r[j] {
          assert r[j] == rest[j - 1] && rest[j - 1] in tail;
          if i > 0 {
            assert r[i] == rest[i - 1];
          }
        }
      }
    }
  }

  /** The toggle button: remove the ID if it is selected, else append it. */
  function Toggle(ids: seq<string>, id: string): (r: seq<string>)
    ensures id in r <==> id !in ids
    ensures forall x :: x != id ==> (x in r <==> x in ids)
  {
    if id in ids then Without(ids, id) else ids + [id]
  }

  /** Toggling keeps the selection free of duplicates. */
  lemma ToggleDistinct(ids: seq<string>, id: string)
    requires Distinct(ids)
    ensures Distinct(Toggle(ids, id))
  {
    if id in ids {
      WithoutDistinct(ids, id);
    }
  }

  /** Toggling the same ID twice restores the selected set, and restores the list
      itself when the ID was not selected. */
  lemma ToggleTwice(ids: seq<string>, id: string)
    ensures Elems(Toggle(Toggle(ids, id), id)) == Elems(ids)
    ensures id !in ids ==> Toggle(Toggle(ids, id), id) == ids
  {
    var once := Toggle(ids, id);
    if id !in ids {
      assert id in once;
      var twice := Where(once, (x: string) => x != id);
      WhereAppend(ids, [id], (x: string) => x != id);
      WhereAll(ids, (x: string) => x != id);
      assert Where([id], (x: string) => x != id) == [];
      assert twice == ids;
    }
  }

  /** A checkbox: checking appends the ID, unchecking removes it. */
  function Check(ids: seq<string>, id: string, checked: bool): (r: seq<string>)
    ensures checked ==> id in r
    ensures !checked ==> id !in r
    ensures forall x :: x != id ==> (x in r <==> x in ids)
  {
    if checked then ids + [id] else Without(ids, id)
  }

  /** A checkbox shows `ids.includes(id)`, so a click always reports the opposite:
      clicking a checkbox is then the toggle button. */
  lemma CheckboxIsToggle(ids: seq<string>, id: string)
    ensures Check(ids, id, id !in ids) == Toggle(ids, id)
  {
  }

  /** Select all: every roster ID, in roster order. */
  function AllIds(roster: seq<RosterEntry>): (r: seq<string>)
    ensures |r| == |roster|
    ensures forall i :: 0 <= i < |r| ==> r[i] == roster[i].studentId
  {
    seq(|roster|, i requires 0 <= i < |roster| => roster[i].studentId)
  }

  /** Select all picks every student of the roster and nothing else. */
  lemma AllIdsSelectsRoster(roster: seq<RosterEntry>, x: string)
    ensures x in AllIds(roster) <==> exists i :: 0 <= i < |roster| && roster[i].studentId == x
  {
    var r := AllIds(roster);
    if x in r {
      var i :| 0 <= i < |r| && r[i] == x;
      assert roster[i].studentId == x;
    }
  }
}
