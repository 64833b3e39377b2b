/**
 * `renderUsers`: the user table body is cleared and refilled from the list
 * the backend returned, one row per user in order, or a single placeholder
 * row when the list is empty. Rows are kept abstract: the cells they show,
 * not their markup.
 */
module UserList {
  import opened Wrappers
  import opened HtmlEscape

  /** A user record as the backend returns it; any field may be absent. */
  datatype User = User(id: Option<int>, name: Option<string>, email: Option<string>)

  /** The id cell shows the id, or `-` when the id is falsy. */
  datatype IdCell = Dash | Number(n: int)

  /** A table row: the "No users found" placeholder, or one user's cells. */
  datatype Row = Placeholder | UserRow(idCell: IdCell, name: string, email: string)

  /** `user.id || '-'`: a missing id and the id 0 are both falsy. */
  function IdCellFor(id: Option<int>): (c: IdCell)
    ensures c == Dash <==> id == None || id == Some(0)
    ensures c.Number? ==> id == Some(c.n)
  {
    match id
    case None => Dash
    case Some(n) => if n == 0 then Dash else Number(n)
  }

  /**
   * The row rendered for one user: the id cell, then name and email as
   * markup-safe text that decodes back to the stored fields.
   */
  function RowFor(u: User): (row: Row)
    ensures row.UserRow?
    ensures row.idCell == Dash <==> u.id == None || u.id == Some(0)
    ensures row.idCell.Number? ==> u.id == Some(row.idCell.n)
    ensures NoMarkupChars(row.name) && AmpersandsAreEntities(row.name)
    ensures NoMarkupChars(row.email) && AmpersandsAreEntities(row.email)
    ensures Decode(row.name) == Shown(u.name) && Decode(row.email) == Shown(u.email)
  {
    EscapeHtmlSafe(u.name);
    EscapeHtmlSafe(u.email);
    CellRoundTrip(u.name);
    CellRoundTrip(u.email);
    UserRow(IdCellFor(u.id), EscapeHtml(u.name), EscapeHtml(u.email))
  }

  /** An escaped cell decodes back to the field, or to the empty string when the field is missing. */
  lemma CellRoundTrip(field: Option<string>)
    ensures Decode(EscapeHtml(field)) == Shown(field)
  {
    if field.Some? {
      EscapeHtmlRoundTrip(field.value);
    }
  }

  /** The table body after `renderUsers(users)`, whatever it held before. */
  function Rendered(users: seq<User>): (rows: seq<Row>)
    ensures users == [] ==> rows == [Placeholder]
    ensures users != [] ==> |rows| == |users| && Placeholder !in rows
    ensures users != [] ==> forall i :: 0 <= i < |users| ==> rows[i] == RowFor(users[i])
  {
    if |users| == 0 then [Placeholder]
    else seq(|users|, i requires 0 <= i < |users| => RowFor(users[i]))
  }

  /** The shown text of a cell reads back, entity-decoded, as the stored field. */
  function Shown(field: Option<string>): string {
    match field
    case None => ""
    case Some(s) => s
  }

  /**
   * Every user row is safe to insert as markup: name and email carry no raw
   * `<`, `>`, `"` or `'`, every `&` opens an entity, and decoding the cells
   * gives back the user's name and email.
   */
  lemma RenderedCellsSafe(users: seq<User>, i: nat)
    requires i < |users|
    ensures Rendered(users)[i].UserRow?
    ensures NoMarkupChars(Rendered(users)[i].name) && AmpersandsAreEntities(Rendered(users)[i].name)
    ensures NoMarkupChars(Rendered(users)[i].email) && AmpersandsAreEntities(Rendered(users)[i].email)
    ensures Decode(Rendered(users)[i].name) == Shown(users[i].name)
    ensures Decode(Rendered(users)[i].email) == Shown(users[i].email)
  {
  }

  /** The user table body, updated in place. */
  class UserListBody {
    var rows: seq<Row>

    constructor ()
      ensures rows == []
    {
      rows := [];
    }

    /** `renderUsers(users)`. */
    method RenderUsers(users: seq<User>)
      modifies this
      ensures rows == Rendered(users)
    {
      rows := [];
      if |users| == 0 {
        rows := [Placeholder];
        return;
      }
      for i := 0 to |users|
        invariant |rows| == i
        invariant forall k :: 0 <= k < i ==> rows[k] == RowFor(users[k])
      {
        rows := rows + [RowFor(users[i])];
      }
    }
  }
}
