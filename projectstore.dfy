/**
 * The project store endpoint (save-project.php): a POST saves a project
 * of a known user, replacing the stored project with the same id or
 * appending a new one; a GET loads one active project of a user, or
 * lists the user's active projects.
 *
 * The users database file is a value here. Reading it is the `stored`
 * parameter (`None` when the file does not exist), and whether writing
 * succeeds is the `written` parameter. The clock (`date('c')`) and the
 * generated project id are parameters too.
 */
module ProjectStore {
  import opened Wrappers

  /** A part list is kept as the client sent it; each element is one part's JSON text. */
  type PartList = seq<string>

  datatype User = User(userID: string)

  datatype Project = Project(
    projectID: string,
    userID: string,
    projectName: string,
    description: string,
    workBenchParts: PartList,
    assemblyParts: PartList,
    currentBench: string,
    createdAt: string,
    modifiedAt: string,
    isActive: bool)

  datatype Database = Database(users: seq<User>, projects: seq<Project>)

  /** `readDatabase`: the stored database, or an empty one when there is no file. */
  function ReadDatabase(stored: Option<Database>): (db: Database)
    ensures stored.None? ==> db.users == [] && db.projects == []
    ensures stored.Some? ==> db == stored.value
  {
    if stored.Some? then stored.value else Database([], [])
  }

  /** The `projectData` of a POST body; a field the client left out (or sent as null) is `None`. */
  datatype ProjectData = ProjectData(
    projectID: Option<string>,
    projectName: Option<string>,
    description: Option<string>,
    workBenchParts: Option<PartList>,
    assemblyParts: Option<PartList>,
    currentBench: Option<string>)

  /** A decoded POST body; `None` fields are missing or null. */
  datatype SaveRequest = SaveRequest(userID: Option<string>, projectData: Option<ProjectData>)

  datatype Action = Updated | Created

  /** A project as the listing shows it. */
  datatype Summary = Summary(projectID: string, projectName: string, description: string,
                             createdAt: string, modifiedAt: string)

  datatype Response =
    | Failed(error: string)
    | Saved(projectID: string, action: Action)
    | NotSaved
    | Loaded(project: Project)
    | Listed(projects: seq<Summary>)

  function Or<T>(o: Option<T>, default: T): (v: T)
    ensures o.Some? ==> v == o.value
    ensures o.None? ==> v == default
  {
    if o.Some? then o.value else default
  }

  // ---------------------------------------------------------------------
  // Specification
  // ---------------------------------------------------------------------

  predicate HasUser(users: seq<User>, userID: string)
  {
    exists i :: 0 <= i < |users| && users[i].userID == userID
  }

  /** The position of the first project with id `id`, if there is one. */
  function FirstWithID(projects: seq<Project>, id: string): (r: Option<nat>)
    ensures r.Some? ==> r.value < |projects| && projects[r.value].projectID == id
    ensures r.Some? ==> forall j :: 0 <= j < r.value ==> projects[j].projectID != id
    ensures r.None? ==> forall j :: 0 <= j < |projects| ==> projects[j].projectID != id
  {
    if projects == [] then None
    else if projects[0].projectID == id then Some(0)
    else
      var rest := FirstWithID(projects[1..], id);
      if rest.Some? then Some(rest.value + 1) else None
  }

  /** The project a POST writes, before `createdAt` is settled. */
  function NewProject(id: string, userID: string, data: ProjectData, now: string): (p: Project)
    ensures p.projectID == id && p.userID == userID && p.isActive && p.modifiedAt == now
    ensures p.projectName == Or(data.projectName, "Untitled Project")
    ensures p.description == Or(data.description, "")
    ensures p.currentBench == Or(data.currentBench, "work")
  {
    Project(id, userID, Or(data.projectName, "Untitled Project"), Or(data.description, ""),
            Or(data.workBenchParts, []), Or(data.assemblyParts, []), Or(data.currentBench, "work"),
            now, now, true)
  }

  /**
   * The projects after saving `p`: the first project with its id is
   * replaced by `p` keeping its `createdAt`; without one, `p` is appended.
   */
  function Upsert(projects: seq<Project>, p: Project): (r: seq<Project>)
    ensures FirstWithID(projects, p.projectID).Some? ==>
              var i := FirstWithID(projects, p.projectID).value;
              |r| == |projects|
              && r[i] == p.(createdAt := projects[i].createdAt)
              && forall j :: 0 <= j < |r| && j != i ==> r[j] == projects[j]
    ensures FirstWithID(projects, p.projectID).None? ==>
              |r| == |projects| + 1 && r[|projects|] == p && r[..|projects|] == projects
  {
    match FirstWithID(projects, p.projectID)
    case Some(i) => projects[i := p.(createdAt := projects[i].createdAt)]
    case None => projects + [p]
  }

  /** After a save, the project's id leads to the saved project (with its old creation time, if it had one). */
  lemma UpsertFinds(projects: seq<Project>, p: Project)
    ensures var r := Upsert(projects, p);
            var i := FirstWithID(r, p.projectID);
            i.Some? && r[i.value].projectID == p.projectID
            && r[i.value] == p.(createdAt := r[i.value].createdAt)
  {
    var r := Upsert(projects, p);
    match FirstWithID(projects, p.projectID)
    case Some(i) =>
      assert FirstWithID(r, p.projectID) == Some(i) by { FirstWithIDUnique(r, p.projectID, i); }
    case None =>
      assert FirstWithID(r, p.projectID) == Some(|projects|) by { FirstWithIDUnique(r, p.projectID, |projects|); }
  }

  lemma FirstWithIDUnique(projects: seq<Project>, id: string, i: nat)
    requires i < |projects| && projects[i].projectID == id
    requires forall j :: 0 <= j < i ==> projects[j].projectID != id
    ensures FirstWithID(projects, id) == Some(i)
  {
  }

  predicate UniqueIDs(projects: seq<Project>)
  {
    forall i, j :: 0 <= i < j < |projects| ==> projects[i].projectID != projects[j].projectID
  }

  /** Saving never makes two projects share an id. */
  lemma UpsertKeepsIDsUnique(projects: seq<Project>, p: Project)
    requires UniqueIDs(projects)
    ensures UniqueIDs(Upsert(projects, p))
  {
  }

  /** The active projects of a user, as the listing shows them, in stored order. */
  function ActiveSummaries(projects: seq<Project>, userID: string): (r: seq<Summary>)
    ensures |r| <= |projects|
  {
    if projects == [] then []
    else
      var p := projects[|projects| - 1];
      ActiveSummaries(projects[..|projects| - 1], userID)
        + (if p.userID == userID && p.isActive then [Summarize(p)] else [])
  }

  function Summarize(p: Project): (s: Summary)
    ensures s.projectID == p.projectID && s.projectName == p.projectName
  {
    Summary(p.projectID, p.projectName, p.description, p.createdAt, p.modifiedAt)
  }

  /** `p` is an active project of the user and `s` is its summary. */
  predicate ListedAs(p: Project, userID: string, s: Summary)
  {
    p.userID == userID && p.isActive && Summarize(p) == s
  }

  /** A project is listed exactly when it is an active project of the user. */
  lemma {:induction false} ListingIsActiveOfUser(projects: seq<Project>, userID: string, s: Summary)
    ensures s in ActiveSummaries(projects, userID)
            <==> exists i :: 0 <= i < |projects| && ListedAs(projects[i], userID, s)
    decreases |projects|
  {
    if projects != [] {
      var n := |projects| - 1;
      var front := projects[..n];
      ListingIsActiveOfUser(front, userID, s);
      if s in ActiveSummaries(projects, userID) {
        if s in ActiveSummaries(front, userID) {
          var i :| 0 <= i < |front| && ListedAs(front[i], userID, s);
          assert projects[i] == front[i];
        } else {
          assert ListedAs(projects[n], userID, s);
        }
      }
      if exists i :: 0 <= i < |projects| && ListedAs(projects[i], userID, s) {
        var i :| 0 <= i < |projects| && ListedAs(projects[i], userID, s);
        if i < n {
          assert front[i] == projects[i];
        }
      }
    }
  }

  /** The first active project of the user with the given id, if there is one. */
  function FirstOwned(projects: seq<Project>, userID: string, id: string): (r: Option<nat>)
    ensures r.Some? ==> r.value < |projects| && Owned(projects[r.value], userID, id)
    ensures r.Some? ==> forall j :: 0 <= j < r.value ==> !Owned(projects[j], userID, id)
    ensures r.None? ==> forall j :: 0 <= j < |projects| ==> !Owned(projects[j], userID, id)
  {
    if projects == [] then None
    else if Owned(projects[0], userID, id) then Some(0)
    else
      var rest := FirstOwned(projects[1..], userID, id);
      if rest.Some? then Some(rest.value + 1) else None
  }

  predicate Owned(p: Project, userID: string, id: string)
  {
    p.projectID == id && p.userID == userID && p.isActive
  }

  /** PHP's falsy strings: the empty string and "0". */
  predicate Falsy(s: string)
  {
    s == "" || s == "0"
  }

  // ---------------------------------------------------------------------
  // The endpoint
  // ---------------------------------------------------------------------

  /** The loop over the users: does one have this id? */
  method FindUser(users: seq<User>, userID: string) returns (found: bool)
    ensures found <==> HasUser(users, userID)
  {
    found := false;
    var k := 0;
    while k < |users|
      invariant 0 <= k <= |users|
      invariant !found ==> forall j :: 0 <= j < k ==> users[j].userID != userID
      invariant found ==> HasUser(users, userID)
    {
      if users[k].userID == userID {
        found := true;
        break;
      }
      k := k + 1;
    }
  }

  /**
   * POST: save a project. A body that is missing, or lacks the user id
   * or the project data, fails and changes nothing, as does an unknown
   * user. Otherwise the project is written under its own id, or a freshly
   * generated one, replacing the first project with that id (keeping when
   * it was created) or appended after the others. The database only
   * changes when it is written.
   */
  method SavePost(stored: Option<Database>, body: Option<SaveRequest>, now: string, generatedID: string, written: bool)
    returns (response: Response, after: Option<Database>)
    ensures body.None? || body.value.userID.None? || body.value.projectData.None? ==>
              response == Failed("Invalid input data") && after == stored
    ensures body.Some? && body.value.userID.Some? && body.value.projectData.Some?
            && !HasUser(ReadDatabase(stored).users, body.value.userID.value) ==>
              response == Failed("User not found") && after == stored
    ensures body.Some? && body.value.userID.Some? && body.value.projectData.Some?
            && HasUser(ReadDatabase(stored).users, body.value.userID.value) ==>
              var db := ReadDatabase(stored);
              var data := body.value.projectData.value;
              var id := Or(data.projectID, generatedID);
              var saved := db.(projects := Upsert(db.projects, NewProject(id, body.value.userID.value, data, now)));
              var action := if FirstWithID(db.projects, id).Some? then Updated else Created;
              (written ==> response == Saved(id, action) && after == Some(saved))
              && (!written ==> response == NotSaved && after == stored)
  {
    if body.None? || body.value.userID.None? || body.value.projectData.None? {
      return Failed("Invalid input data"), stored;
    }
    var userID := body.value.userID.value;
    var data := body.value.projectData.value;
    var database := ReadDatabase(stored);
    var userExists := FindUser(database.users, userID);
    if !userExists {
      return Failed("User not found"), stored;
    }
    var projectID := Or(data.projectID, generatedID);
    var project := NewProject(projectID, userID, data, now);
    var projects := database.projects;
    var isUpdate := false;
    var i := 0;
    while i < |projects|
      invariant 0 <= i <= |projects|
      invariant !isUpdate ==> projects == database.projects
                              && forall j :: 0 <= j < i ==> projects[j].projectID != projectID
      invariant isUpdate ==> projects == Upsert(database.projects, project)
    {
      if projects[i].projectID == projectID {
        FirstWithIDUnique(projects, projectID, i);
        projects := projects[i := project.(createdAt := projects[i].createdAt)];
        isUpdate := true;
        break;
      }
      i := i + 1;
    }
    if !isUpdate {
      projects := projects + [project];
    }
    if written {
      response := Saved(projectID, if isUpdate then Updated else Created);
      after := Some(database.(projects := projects));
    } else {
      response := NotSaved;
      after := stored;
    }
  }

  /**
   * GET: a falsy user id fails; with a (truthy) project id, the first
   * active project of the user with that id, or "Project not found";
   * without one, the summaries of the user's active projects.
   */
  method LoadGet(stored: Option<Database>, userID: string, projectID: string) returns (response: Response)
    ensures Falsy(userID) ==> response == Failed("User ID required")
    ensures !Falsy(userID) && !Falsy(projectID) ==>
              var projects := ReadDatabase(stored).projects;
              match FirstOwned(projects, userID, projectID)
              case Some(i) => response == Loaded(projects[i])
              case None => response == Failed("Project not found")
    ensures !Falsy(userID) && Falsy(projectID) ==>
              response == Listed(ActiveSummaries(ReadDatabase(stored).projects, userID))
  {
    if Falsy(userID) {
      return Failed("User ID required");
    }
    var projects := ReadDatabase(stored).projects;
    if !Falsy(projectID) {
      var k := 0;
      while k < |projects|
        invariant 0 <= k <= |projects|
        invariant forall j :: 0 <= j < k ==> !Owned(projects[j], userID, projectID)
      {
        if Owned(projects[k], userID, projectID) {
          FirstOwnedIs(projects, userID, projectID, k);
          return Loaded(projects[k]);
        }
        k := k + 1;
      }
      return Failed("Project not found");
    }
    var userProjects := [];
    var k := 0;
    while k < |projects|
      invariant 0 <= k <= |projects|
      invariant userProjects == ActiveSummaries(projects[..k], userID)
    {
      var p := projects[k];
      assert projects[..k + 1][..k] == projects[..k];
      if p.userID == userID && p.isActive {
        userProjects := userProjects + [Summarize(p)];
      }
      k := k + 1;
    }
    assert projects[..|projects|] == projects;
    return Listed(userProjects);
  }

  lemma FirstOwnedIs(projects: seq<Project>, userID: string, id: string, k: nat)
    requires k < |projects| && Owned(projects[k], userID, id)
    requires forall j :: 0 <= j < k ==> !Owned(projects[j], userID, id)
    ensures FirstOwned(projects, userID, id) == Some(k)
  {
  }
}
