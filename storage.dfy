/**
 * The server's in-memory record store (`MemStorage`): an id counter and one
 * insertion-ordered map per entity kind. Only users are ever created; the other
 * six collections start empty and can only be listed.
 */
module Storage {
  import opened Wrappers
  import opened IdMaps

  /** The fields a registration supplies (`InsertUser`). */
  datatype InsertUser = InsertUser(username: string, password: string, name: string, role: string)

  /** A stored user: the inserted fields plus the assigned id and the creation time. */
  datatype User = User(id: int, username: string, password: string, name: string, role: string, createdAt: int)

  /** A record of one of the other six kinds; only its numeric id matters here, its descriptive fields are opaque. */
  datatype Entity = Entity(id: int, fields: map<string, string>)

  type Subject = Entity
  type Lecture = Entity
  type Assignment = Entity
  type Submission = Entity
  type Document = Entity
  type StudentProgress = Entity

  /** `k` is the position of the earliest user named `name`. */
  ghost predicate IsFirstWithUsername(users: seq<User>, name: string, k: int) {
    0 <= k < |users| && users[k].username == name
    && forall j :: 0 <= j < k ==> users[j].username != name
  }

  /** `users.find(u => u.username === name)`: the earliest user with that username, if any. */
  function FindByUsername(users: seq<User>, name: string): (r: Option<User>)
    ensures r.None? <==> forall i :: 0 <= i < |users| ==> users[i].username != name
    ensures r.Some? ==> exists k :: IsFirstWithUsername(users, name, k) && r.value == users[k]
  {
    if users == [] then None
    else if users[0].username == name then
      assert IsFirstWithUsername(users, name, 0);
      Some(users[0])
    else
      var r := FindByUsername(users[1..], name);
      assert r.Some? ==> exists k :: IsFirstWithUsername(users, name, k) && r.value == users[k] by {
        if r.Some? {
          var k :| IsFirstWithUsername(users[1..], name, k) && r.value == users[1..][k];
          assert IsFirstWithUsername(users, name, k + 1);
        }
      }
      r
  }

  /**
   * Appending a user never changes who an existing username finds, and makes the
   * appended user findable when its username was not taken.
   */
  lemma FindAfterAppend(users: seq<User>, u: User, name: string)
    ensures FindByUsername(users + [u], name)
         == if FindByUsername(users, name).Some? then FindByUsername(users, name)
            else if u.username == name then Some(u) else None
  {
    var all := users + [u];
    var r := FindByUsername(users, name);
    if r.Some? {
      var k :| IsFirstWithUsername(users, name, k) && r.value == users[k];
      assert IsFirstWithUsername(all, name, k);
      var r' := FindByUsername(all, name);
      var k' :| IsFirstWithUsername(all, name, k') && r'.value == all[k'];
      assert k' == k;
    } else if u.username == name {
      assert IsFirstWithUsername(all, name, |users|);
      var r' := FindByUsername(all, name);
      var k' :| IsFirstWithUsername(all, name, k') && r'.value == all[k'];
      assert k' == |users|;
    } else {
      assert forall i :: 0 <= i < |all| ==> all[i].username != name;
    }
  }

  /**
   * The users map is well formed; each user sits under its own id; ids lie in
   * [1, next), so `next` is free; and insertion order is id order.
   */
  ghost predicate UsersValid(users: IdMap<User>, next: int) {
    && IdMaps.Valid(users)
    && next >= 1
    && (forall i :: 0 <= i < |users.order| ==> 1 <= users.order[i] < next)
    && (forall i, j :: 0 <= i < j < |users.order| ==> users.order[i] < users.order[j])
    && (forall id :: id in users.entries ==> users.entries[id].id == id)
  }

  /** Storing a user under the next id: the id was free, the invariant holds for the following id, and the user is listed last. */
  lemma StoreUserKeepsValid(users: IdMap<User>, next: int, u: User)
    requires UsersValid(users, next) && u.id == next
    ensures next !in users.entries
    ensures UsersValid(Set(users, next, u), next + 1)
    ensures Values(Set(users, next, u)) == Values(users) + [u]
  {
    assert next !in users.order;
    ValuesAfterSetFresh(users, next, u);
  }

  /** The store; every map is a field that the methods reassign. */
  class MemStorage {
    var users: IdMap<User>
    var subjects: IdMap<Subject>
    var lectures: IdMap<Lecture>
    var assignments: IdMap<Assignment>
    var submissions: IdMap<Submission>
    var documents: IdMap<Document>
    var studentProgress: IdMap<StudentProgress>
    var currentId: int

    /** Every map is well formed, and the users map keeps `UsersValid` for the counter. */
    ghost predicate Valid()
      reads this
    {
      && UsersValid(users, currentId)
      && IdMaps.Valid(subjects) && IdMaps.Valid(lectures) && IdMaps.Valid(assignments)
      && IdMaps.Valid(submissions) && IdMaps.Valid(documents) && IdMaps.Valid(studentProgress)
    }

    /** A fresh store: the counter at 1 and every collection empty. */
    constructor ()
      ensures Valid()
      ensures currentId == 1
      ensures users == Empty() && subjects == Empty() && lectures == Empty() && assignments == Empty()
      ensures submissions == Empty() && documents == Empty() && studentProgress == Empty()
      ensures Values(users) == [] && Values(subjects) == [] && Values(lectures) == []
      ensures Values(assignments) == [] && Values(submissions) == [] && Values(documents) == []
      ensures Values(studentProgress) == []
    {
      users := Empty();
      subjects := Empty();
      lectures := Empty();
      assignments := Empty();
      submissions := Empty();
      documents := Empty();
      studentProgress := Empty();
      currentId := 1;
    }

    /** `getUser(id)`: the user stored under `id`, whose own id is `id`. */
    method GetUser(id: int) returns (r: Option<User>)
      requires Valid()
      ensures r.Some? <==> id in users.entries
      ensures r.Some? ==> r.value == users.entries[id] && r.value.id == id
    {
      r := Get(users, id);
    }

    /** `getUserByUsername(name)`: a scan of the users in insertion order for the first match. */
    method GetUserByUsername(name: string) returns (r: Option<User>)
      requires Valid()
      ensures r == FindByUsername(Values(users), name)
    {
      var all := Values(users);
      var i := 0;
      while i < |all|
        invariant 0 <= i <= |all|
        invariant FindByUsername(all[i..], name) == FindByUsername(all, name)
      {
        if all[i].username == name {
          return Some(all[i]);
        }
        assert all[i..][1..] == all[i + 1..];
        i := i + 1;
      }
      return None;
    }

    /**
     * `createUser(insert)`: takes the counter's value as the new id, bumps the
     * counter, and stores the inserted fields unchanged under that id. There is no
     * uniqueness check on the username, and no other collection is touched.
     */
    method CreateUser(insert: InsertUser, now: int) returns (u: User)
      requires Valid()
      modifies this
      ensures Valid()
      ensures u == User(old(currentId), insert.username, insert.password, insert.name, insert.role, now)
      ensures currentId == old(currentId) + 1
      ensures old(currentId) !in old(users.entries)
      ensures users == Set(old(users), u.id, u)
      ensures Values(users) == old(Values(users)) + [u]
      ensures subjects == old(subjects) && lectures == old(lectures) && assignments == old(assignments)
      ensures submissions == old(submissions) && documents == old(documents)
      ensures studentProgress == old(studentProgress)
    {
      var id := currentId;
      currentId := currentId + 1;
      u := User(id, insert.username, insert.password, insert.name, insert.role, now);
      StoreUserKeepsValid(users, id, u);
      users := Set(users, id, u);
    }

    /** `getAllSubjects()` */
    method GetAllSubjects() returns (r: seq<Subject>)
      requires Valid()
      ensures r == Values(subjects)
    {
      r := Values(subjects);
    }

    /** `getAllLectures()` */
    method GetAllLectures() returns (r: seq<Lecture>)
      requires Valid()
      ensures r == Values(lectures)
    {
      r := Values(lectures);
    }

    /** `getAllAssignments()` */
    method GetAllAssignments() returns (r: seq<Assignment>)
      requires Valid()
      ensures r == Values(assignments)
    {
      r := Values(assignments);
    }

    /** `getAllSubmissions()` */
    method GetAllSubmissions() returns (r: seq<Submission>)
      requires Valid()
      ensures r == Values(submissions)
    {
      r := Values(submissions);
    }

    /** `getAllDocuments()` */
    method GetAllDocuments() returns (r: seq<Document>)
      requires Valid()
      ensures r == Values(documents)
    {
      r := Values(documents);
    }

    /** `getAllStudentProgress()` */
    method GetAllStudentProgress() returns (r: seq<StudentProgress>)
      requires Valid()
      ensures r == Values(studentProgress)
    {
      r := Values(studentProgress);
    }
  }

  /** Two successive creations get distinct, increasing ids, and the first user is still stored after the second. */
  method CreateTwice(store: MemStorage, a: InsertUser, b: InsertUser, now: int) returns (u: User, v: User)
    requires store.Valid()
    modifies store
    ensures store.Valid()
    ensures u.id < v.id && v.id == u.id + 1
    ensures Get(store.users, u.id) == Some(u) && Get(store.users, v.id) == Some(v)
  {
    u := store.CreateUser(a, now);
    v := store.CreateUser(b, now);
  }

  /** A created user reads back under its id, and every user stored before keeps its record. */
  method CreateThenGet(store: MemStorage, insert: InsertUser, now: int) returns (u: User, r: Option<User>)
    requires store.Valid()
    modifies store
    ensures store.Valid()
    ensures r == Some(u) && u.id == old(store.currentId)
    ensures forall id :: id in old(store.users.entries) ==>
      id in store.users.entries && store.users.entries[id] == old(store.users.entries[id])
  {
    u := store.CreateUser(insert, now);
    r := store.GetUser(u.id);
  }

  /** Right after start every listing is empty. */
  method ListingsOfFreshStore() returns (s: seq<Subject>, l: seq<Lecture>, a: seq<Assignment>,
                                         sub: seq<Submission>, d: seq<Document>, p: seq<StudentProgress>)
    ensures s == [] && l == [] && a == [] && sub == [] && d == [] && p == []
  {
    var store := new MemStorage();
    s := store.GetAllSubjects();
    l := store.GetAllLectures();
    a := store.GetAllAssignments();
    sub := store.GetAllSubmissions();
    d := store.GetAllDocuments();
    p := store.GetAllStudentProgress();
  }
}
