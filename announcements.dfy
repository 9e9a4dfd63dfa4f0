/**
 * The announcements table of the Flask dashboard (web/webserver.py) and
 * the routes that change it: creation by an admin, edit, visibility toggle
 * and delete by id, and the listing each role sees.
 */
module Announcements {
  import opened Wrappers
  import opened Sorting
  import opened Seqs
  import opened Users

  datatype Announcement = Announcement(
    id: int,
    title: string,
    content: string,
    author: string,
    createdAt: int,
    isVisible: bool)

  const Success := 200
  const Forbidden := 403
  const MissingFields := "Both title and description are required."

  /** The flash shown after a successful insert. */
  const Created := "Announcement created successfully!"

  function CreatedAt(a: Announcement): int { a.createdAt }

  /** Python truthiness of a submitted field: present and non-empty. */
  predicate Filled(field: Option<string>)
  {
    field.Some? && field.value != ""
  }

  predicate DistinctIds(rows: seq<Announcement>)
  {
    forall i, j :: 0 <= i < j < |rows| ==> rows[i].id != rows[j].id
  }

  /** WHERE is_visible = TRUE. */
  function Visible(rows: seq<Announcement>): seq<Announcement>
  {
    if rows == [] then [] else (if rows[0].isVisible then [rows[0]] else []) + Visible(rows[1..])
  }

  lemma {:induction false} VisibleMembers(rows: seq<Announcement>)
    ensures forall x :: x in Visible(rows) <==> x in rows && x.isVisible
  {
    if rows != [] {
      VisibleMembers(rows[1..]);
      assert rows == [rows[0]] + rows[1..];
    }
  }

  /** The listing query: all rows for an admin, the visible ones otherwise, newest first. */
  function ListingOf(rows: seq<Announcement>, admin: bool): seq<Announcement>
  {
    SortDesc(if admin then rows else Visible(rows), CreatedAt)
  }

  /**
   * The listing is ordered by created_at, newest first, and holds every
   * announcement an admin may see, or exactly the visible ones for a team.
   */
  lemma ListingCorrect(rows: seq<Announcement>, admin: bool)
    ensures SortedDesc(ListingOf(rows, admin), CreatedAt)
    ensures admin ==> multiset(ListingOf(rows, admin)) == multiset(rows)
    ensures !admin ==> multiset(ListingOf(rows, admin)) == multiset(Visible(rows))
    ensures forall x :: x in ListingOf(rows, admin) <==> x in rows && (admin || x.isVisible)
  {
    var source := if admin then rows else Visible(rows);
    SortDescCorrect(source, CreatedAt);
    PermutationMembers(ListingOf(rows, admin), source);
    VisibleMembers(rows);
  }

  /** UPDATE ... SET is_visible = NOT is_visible WHERE announcement_id = id. */
  function Toggled(rows: seq<Announcement>, id: int): (r: seq<Announcement>)
    ensures |r| == |rows|
  {
    seq(|rows|, k requires 0 <= k < |rows| => if rows[k].id == id then rows[k].(isVisible := !rows[k].isVisible) else rows[k])
  }

  /** Toggling the same announcement twice restores the table. */
  lemma ToggleTwice(rows: seq<Announcement>, id: int)
    ensures Toggled(Toggled(rows, id), id) == rows
  {
  }

  /** A toggle flips the visibility of the announcement with that id and changes nothing else. */
  lemma ToggleFlipsOnlyTarget(rows: seq<Announcement>, id: int, k: nat)
    requires k < |rows|
    ensures Toggled(rows, id)[k].isVisible == (rows[k].isVisible != (rows[k].id == id))
    ensures Toggled(rows, id)[k].(isVisible := rows[k].isVisible) == rows[k]
  {
  }

  /** UPDATE ... SET title, content WHERE announcement_id = id. */
  function Edited(rows: seq<Announcement>, id: int, title: string, content: string): (r: seq<Announcement>)
    ensures |r| == |rows|
  {
    seq(|rows|, k requires 0 <= k < |rows| => if rows[k].id == id then rows[k].(title := title, content := content) else rows[k])
  }

  /** An edit sets the title and content of the announcement with that id and changes nothing else. */
  lemma EditChangesOnlyTarget(rows: seq<Announcement>, id: int, title: string, content: string, k: nat)
    requires k < |rows|
    ensures Edited(rows, id, title, content)[k].title == (if rows[k].id == id then title else rows[k].title)
    ensures Edited(rows, id, title, content)[k].content == (if rows[k].id == id then content else rows[k].content)
    ensures Edited(rows, id, title, content)[k].(title := rows[k].title, content := rows[k].content) == rows[k]
  {
  }

  /** DELETE ... WHERE announcement_id = id. */
  function Without(rows: seq<Announcement>, id: int): seq<Announcement>
  {
    if rows == [] then [] else (if rows[0].id == id then [] else [rows[0]]) + Without(rows[1..], id)
  }

  /** After a delete no announcement has the id, every other one is kept, and the ids stay distinct. */
  lemma {:induction false} DeleteRemoves(rows: seq<Announcement>, id: int)
    ensures forall x :: x in Without(rows, id) <==> x in rows && x.id != id
    ensures DistinctIds(rows) ==> DistinctIds(Without(rows, id))
  {
    if rows != [] {
      DeleteRemoves(rows[1..], id);
      assert rows == [rows[0]] + rows[1..];
      if DistinctIds(rows) {
        var rest := Without(rows[1..], id);
        assert DistinctIds(rows[1..]);
        forall j | 0 <= j < |rest| ensures rest[j].id != rows[0].id {
          var m := IndexOf(rows[1..], rest[j]);
          assert rows[m + 1] == rest[j];
        }
      }
    }
  }

  /** What the announcements page does after a request. */
  datatype PageOutcome = Redirected(notice: string) | Shown(flash: Option<string>, listing: seq<Announcement>)

  class Board {
    var rows: seq<Announcement>
    /** The next value of the announcement_id serial. */
    var nextId: int
    /** The column default of is_visible. */
    const visibleByDefault: bool

    ghost predicate Valid()
      reads this
    {
      DistinctIds(rows) && forall k :: 0 <= k < |rows| ==> rows[k].id < nextId
    }

    constructor(visibleByDefault: bool)
      ensures Valid()
      ensures rows == [] && nextId == 1 && this.visibleByDefault == visibleByDefault
    {
      rows := [];
      nextId := 1;
      this.visibleByDefault := visibleByDefault;
    }

    function Listing(viewer: Viewer): seq<Announcement>
      reads this
    {
      ListingOf(rows, Privilege(viewer) == "admin")
    }

    /**
     * The announcements route. A POST by an admin with a title and a
     * description inserts an announcement and redirects with a success flash; without both it
     * flashes an error. A POST by a team is ignored. Every request that
     * does not redirect shows the listing for the viewer's role.
     */
    method Request(viewer: Viewer, isPost: bool, title: Option<string>, description: Option<string>, now: int)
      returns (outcome: PageOutcome)
      requires Valid()
      modifies this
      ensures Valid()
      ensures isPost && viewer.AdminUser? && Filled(title) && Filled(description) ==>
                rows == old(rows) + [Announcement(old(nextId), title.value, description.value, viewer.username, now, visibleByDefault)] &&
                nextId == old(nextId) + 1 && outcome == Redirected(Created)
      ensures !(isPost && viewer.AdminUser? && Filled(title) && Filled(description)) ==>
                rows == old(rows) && nextId == old(nextId) &&
                outcome == Shown(if isPost && viewer.AdminUser? then Some(MissingFields) else None, Listing(viewer))
    {
      if isPost && Privilege(viewer) == "admin" {
        if Filled(title) && Filled(description) {
          rows := rows + [Announcement(nextId, title.value, description.value, viewer.username, now, visibleByDefault)];
          nextId := nextId + 1;
          return Redirected(Created);
        }
        return Shown(Some(MissingFields), Listing(viewer));
      }
      return Shown(None, Listing(viewer));
    }

    /** edit_announcement: 403 for a team; otherwise "Success", updating only when both fields are given. */
    method Edit(viewer: Viewer, id: int, title: Option<string>, content: Option<string>) returns (status: int)
      requires Valid()
      modifies this
      ensures Valid()
      ensures status == (if viewer.AdminUser? then Success else Forbidden)
      ensures rows == (if viewer.AdminUser? && Filled(title) && Filled(content) then Edited(old(rows), id, title.value, content.value) else old(rows))
      ensures nextId == old(nextId)
    {
      if Privilege(viewer) != "admin" {
        return Forbidden;
      }
      if Filled(title) && Filled(content) {
        rows := Edited(rows, id, title.value, content.value);
      }
      return Success;
    }

    /** toggle_announcement: 403 for a team; otherwise flips that announcement's visibility. */
    method Toggle(viewer: Viewer, id: int) returns (status: int)
      requires Valid()
      modifies this
      ensures Valid()
      ensures status == (if viewer.AdminUser? then Success else Forbidden)
      ensures rows == (if viewer.AdminUser? then Toggled(old(rows), id) else old(rows))
      ensures nextId == old(nextId)
    {
      if Privilege(viewer) != "admin" {
        return Forbidden;
      }
      rows := Toggled(rows, id);
      return Success;
    }

    /** delete_announcement: 403 for a team; otherwise removes the announcement with that id. */
    method Delete(viewer: Viewer, id: int) returns (status: int)
      requires Valid()
      modifies this
      ensures Valid()
      ensures status == (if viewer.AdminUser? then Success else Forbidden)
      ensures rows == (if viewer.AdminUser? then Without(old(rows), id) else old(rows))
      ensures nextId == old(nextId)
    {
      if Privilege(viewer) != "admin" {
        return Forbidden;
      }
      DeleteRemoves(rows, id);
      ghost var before := rows;
      rows := Without(rows, id);
      forall k | 0 <= k < |rows| ensures rows[k].id < nextId {
        assert rows[k] in before;
        var m := IndexOf(before, rows[k]);
      }
      return Success;
    }
  }
}
