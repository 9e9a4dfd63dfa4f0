/**
 * The two kinds of logged-in user of the Flask dashboard (web/webserver.py):
 * a team, whose id is its integer team_id, and an admin, whose id is its
 * name.
 */
module Users {

  datatype Viewer = TeamUser(id: int, username: string, color: string) | AdminUser(username: string)

  /** The privilege attribute: "user" for a team, "admin" for an admin. */
  function Privilege(v: Viewer): (p: string)
    ensures p == "admin" <==> v.AdminUser?
  {
    if v.TeamUser? then "user" else "admin"
  }

  /** Whether the user's id is a Python int: only team users have one. */
  predicate HasIntId(v: Viewer)
  {
    v.TeamUser?
  }
}
