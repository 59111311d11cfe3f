/**
 * The project service of backend/services/project.service.js over an abstract document store: one map
 * from project id to project record and one from user id to user record. `ObjectId.isValid` is a
 * predicate supplied by the caller; ids are strings and the empty string is the falsy (missing) id.
 */
module ProjectService {
  import opened Wrappers
  import opened JsValues
  import opened Sequences
  import opened ExternalCalls

  type Id = string

  datatype ProjectRecord = ProjectRecord(name: string, users: seq<Id>, fileTree: Json)
  datatype UserRecord = UserRecord(email: string, projects: seq<Id>)

  /** A project as `getProjectById` returns it: its member ids replaced by the user records (`populate`). */
  datatype ProjectView = ProjectView(id: Id, name: string, users: seq<UserRecord>, fileTree: Json)

  /** The errors the service throws, one per message. */
  datatype ServiceError =
    | NameRequired | UserRequired | UserIdRequired | ProjectIdRequired | InvalidProjectId | UsersRequired
    | InvalidUserIds | CallerIdRequired | InvalidCallerId | NotAuthorized | ProjectIdMissing | MalformedProjectId
    | FileTreeNotObject

  function Message(e: ServiceError): string
  {
    match e
    case NameRequired => "Name is Required!"
    case UserRequired => "User is Required!"
    case UserIdRequired => "UserId is Required"
    case ProjectIdRequired => "Project ID is Required"
    case InvalidProjectId => "Invalid Project ID"
    case UsersRequired => "Users are Required"
    case InvalidUserIds => "Invalid UserId(s) in the users array"
    case CallerIdRequired => "UserId is required"
    case InvalidCallerId => "Invalid User ID"
    case NotAuthorized => "User not Authorized"
    case ProjectIdMissing => "Project ID is required"
    case MalformedProjectId => "It should be a valid project ID"
    case FileTreeNotObject => "File Tree should be an object"
  }

  /**
   * `$addToSet: {$each: ys}` on an array: each element of `ys`, in order, is appended unless the array
   * already holds it. The old elements stay in front, in their order.
   */
  function AddToSet(xs: seq<Id>, ys: seq<Id>): (r: seq<Id>)
    ensures |xs| <= |r| && r[..|xs|] == xs
    ensures forall x :: x in r <==> x in xs || x in ys
    ensures NoDuplicates(xs) ==> NoDuplicates(r)
    decreases |ys|
  {
    if ys == [] then xs
    else AddToSet(if ys[0] in xs then xs else xs + [ys[0]], ys[1..])
  }

  /** `$addToSet` with elements already present changes nothing. */
  lemma {:induction false} AddToSetOfPresent(xs: seq<Id>, ys: seq<Id>)
    requires forall y :: y in ys ==> y in xs
    ensures AddToSet(xs, ys) == xs
    decreases |ys|
  {
    if ys != [] {
      AddToSetOfPresent(xs, ys[1..]);
    }
  }

  /** Adding the same users twice is adding them once. */
  lemma AddToSetIdempotent(xs: seq<Id>, ys: seq<Id>)
    ensures AddToSet(AddToSet(xs, ys), ys) == AddToSet(xs, ys)
  {
    AddToSetOfPresent(AddToSet(xs, ys), ys);
  }

  /** The checks of `addUserToProject` before the store is read, reporting the first that fails. */
  function AddUserChecks(projectId: Id, users: Option<seq<Id>>, userId: Id, isValid: IdCheck): (r: Option<ServiceError>)
    ensures r == Some(ProjectIdRequired) <==> projectId == ""
    ensures r == Some(InvalidProjectId) <==> projectId != "" && !isValid(projectId)
    ensures r == Some(UsersRequired) <==> projectId != "" && isValid(projectId) && users.None?
    ensures r == Some(InvalidUserIds) <==>
              projectId != "" && isValid(projectId) && users.Some? && exists u :: u in users.value && !isValid(u)
    ensures r == Some(CallerIdRequired) <==>
              projectId != "" && isValid(projectId) && users.Some? && (forall u :: u in users.value ==> isValid(u))
              && userId == ""
    ensures r == Some(InvalidCallerId) <==>
              projectId != "" && isValid(projectId) && users.Some? && (forall u :: u in users.value ==> isValid(u))
              && userId != "" && !isValid(userId)
    ensures r.None? <==>
              projectId != "" && isValid(projectId) && users.Some? && (forall u :: u in users.value ==> isValid(u))
              && userId != "" && isValid(userId)
  {
    if projectId == "" then Some(ProjectIdRequired)
    else if !isValid(projectId) then Some(InvalidProjectId)
    else if users.None? then Some(UsersRequired)
    else if exists u :: u in users.value && !isValid(u) then Some(InvalidUserIds)
    else if userId == "" then Some(CallerIdRequired)
    else if !isValid(userId) then Some(InvalidCallerId)
    else None
  }

  /** The checks shared by `getProjectById` and `updateFileTree`. */
  function ProjectIdChecks(projectId: Id, isValid: IdCheck): (r: Option<ServiceError>)
    ensures r == Some(ProjectIdMissing) <==> projectId == ""
    ensures r == Some(MalformedProjectId) <==> projectId != "" && !isValid(projectId)
    ensures r.None? <==> projectId != "" && isValid(projectId)
  {
    if projectId == "" then Some(ProjectIdMissing)
    else if !isValid(projectId) then Some(MalformedProjectId)
    else None
  }

  /** The user records of the member ids that exist, in member order (`populate('users')`). */
  function Populate(ids: seq<Id>, users: map<Id, UserRecord>): (r: seq<UserRecord>)
    ensures |r| <= |ids|
    ensures forall u :: u in r ==> exists id :: id in ids && id in users && users[id] == u
    ensures forall id :: id in ids && id in users ==> users[id] in r
  {
    if ids == [] then []
    else (if ids[0] in users then [users[ids[0]]] else []) + Populate(ids[1..], users)
  }

  class ProjectStore {
    var projects: map<Id, ProjectRecord>
    var users: map<Id, UserRecord>

    constructor (projects0: map<Id, ProjectRecord>, users0: map<Id, UserRecord>)
      ensures projects == projects0 && users == users0
    {
      projects, users := projects0, users0;
    }

    /**
     * `createProject`: the name is checked before the user; the new project (under the id the store
     * hands out) has the creator as its only member and an empty file tree, and the creator's record,
     * if it exists, gains the new id.
     */
    method CreateProject(name: string, userId: Id, newId: Id) returns (r: Result<ProjectRecord, ServiceError>)
      requires newId !in projects
      modifies this
      ensures name == "" ==> r == Failure(NameRequired)
      ensures name != "" && userId == "" ==> r == Failure(UserRequired)
      ensures r.Failure? ==> projects == old(projects) && users == old(users)
      ensures r.Success? <==> name != "" && userId != ""
      ensures r.Success? ==>
                && r.value == ProjectRecord(name, [userId], JObject(map[]))
                && projects == old(projects)[newId := r.value]
                && users == (if userId in old(users)
                             then old(users)[userId := old(users)[userId].(projects := old(users)[userId].projects + [newId])]
                             else old(users))
    {
      if name == "" {
        return Failure(NameRequired);
      }
      if userId == "" {
        return Failure(UserRequired);
      }
      var project := ProjectRecord(name, [userId], JObject(map[]));
      projects := projects[newId := project];
      if userId in users {
        users := users[userId := users[userId].(projects := users[userId].projects + [newId])];
      }
      return Success(project);
    }

    /** `getAllProjectsByUserId`: exactly the projects whose members include the user. */
    method GetAllProjectsByUserId(userId: Id) returns (r: Result<map<Id, ProjectRecord>, ServiceError>)
      ensures userId == "" <==> r == Failure(UserIdRequired)
      ensures r.Success? <==> userId != ""
      ensures r.Success? ==>
                && (forall id :: id in r.value <==> id in projects && userId in projects[id].users)
                && (forall id :: id in r.value ==> r.value[id] == projects[id])
    {
      if userId == "" {
        return Failure(UserIdRequired);
      }
      return Success(map id | id in projects && userId in projects[id].users :: projects[id]);
    }

    /**
     * `addUserToProject`: the ordered checks, then the caller must already be a member; on success the
     * members become the old members followed by the new ones not yet present, and every listed user
     * with a record gains the project once. Nothing changes on any error.
     */
    method AddUserToProject(projectId: Id, newUsers: Option<seq<Id>>, userId: Id, isValid: IdCheck)
      returns (r: Result<ProjectRecord, ServiceError>)
      modifies this
      ensures var check := AddUserChecks(projectId, newUsers, userId, isValid);
              && (check.Some? ==> r == Failure(check.value))
              && (check.None? && (projectId !in old(projects) || userId !in old(projects)[projectId].users) ==>
                    r == Failure(NotAuthorized))
      ensures r.Success? <==>
                AddUserChecks(projectId, newUsers, userId, isValid).None? &&
                projectId in old(projects) && userId in old(projects)[projectId].users
      ensures r.Failure? ==> projects == old(projects) && users == old(users)
      ensures r.Success? ==>
                && AddUserChecks(projectId, newUsers, userId, isValid).None?
                && projectId in old(projects) && userId in old(projects)[projectId].users
                && r.value == old(projects)[projectId].(users := AddToSet(old(projects)[projectId].users, newUsers.value))
                && projects == old(projects)[projectId := r.value]
                && users.Keys == old(users).Keys
                && (forall u :: u in users ==>
                      users[u] == if u in newUsers.value
                                  then old(users)[u].(projects := AddToSet(old(users)[u].projects, [projectId]))
                                  else old(users)[u])
    {
      var check := AddUserChecks(projectId, newUsers, userId, isValid);
      if check.Some? {
        return Failure(check.value);
      }
      if projectId !in projects || userId !in projects[projectId].users {
        return Failure(NotAuthorized);
      }
      var listed := newUsers.value;
      var updated := projects[projectId].(users := AddToSet(projects[projectId].users, listed));
      projects := projects[projectId := updated];
      users := map u | u in users ::
                 if u in listed then users[u].(projects := AddToSet(users[u].projects, [projectId])) else users[u];
      return Success(updated);
    }

    /** `getProjectById`: errors for a missing or malformed id; a well-formed unknown id gives `null`. */
    method GetProjectById(projectId: Id, isValid: IdCheck) returns (r: Result<Option<ProjectView>, ServiceError>)
      ensures ProjectIdChecks(projectId, isValid).Some? ==> r == Failure(ProjectIdChecks(projectId, isValid).value)
      ensures ProjectIdChecks(projectId, isValid).None? ==> r.Success?
      ensures r.Success? ==> (r.value.None? <==> projectId !in projects)
      ensures r.Success? && r.value.Some? ==>
                var p := projects[projectId];
                r.value.value == ProjectView(projectId, p.name, Populate(p.users, users), p.fileTree)
    {
      var check := ProjectIdChecks(projectId, isValid);
      if check.Some? {
        return Failure(check.value);
      }
      if projectId !in projects {
        return Success(None);
      }
      var p := projects[projectId];
      return Success(Some(ProjectView(projectId, p.name, Populate(p.users, users), p.fileTree)));
    }

    /**
     * `updateFileTree`: the id checks, then the tree must be truthy and of type object; the stored tree
     * of an existing project is replaced wholesale and nothing else changes.
     */
    method UpdateFileTree(projectId: Id, fileTree: Option<Json>, isValid: IdCheck)
      returns (r: Result<Option<ProjectRecord>, ServiceError>)
      modifies this
      ensures ProjectIdChecks(projectId, isValid).Some? ==> r == Failure(ProjectIdChecks(projectId, isValid).value)
      ensures ProjectIdChecks(projectId, isValid).None? && !(Truthy(fileTree) && TypeofObject(fileTree)) ==>
                r == Failure(FileTreeNotObject)
      ensures r.Success? <==> ProjectIdChecks(projectId, isValid).None? && Truthy(fileTree) && TypeofObject(fileTree)
      ensures users == old(users)
      ensures r.Failure? || projectId !in old(projects) ==> projects == old(projects)
      ensures r.Success? ==> (r.value.None? <==> projectId !in old(projects))
      ensures r.Success? && r.value.Some? ==>
                && r.value.value == old(projects)[projectId].(fileTree := fileTree.value)
                && projects == old(projects)[projectId := r.value.value]
    {
      var check := ProjectIdChecks(projectId, isValid);
      if check.Some? {
        return Failure(check.value);
      }
      if !Truthy(fileTree) || !TypeofObject(fileTree) {
        return Failure(FileTreeNotObject);
      }
      if projectId !in projects {
        return Success(None);
      }
      var updated := projects[projectId].(fileTree := fileTree.value);
      projects := projects[projectId := updated];
      return Success(Some(updated));
    }
  }
}
