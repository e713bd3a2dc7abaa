/** The backend's in-memory record store (server.js) with its four route
    handlers as operations on a store object. Express, JSON parsing and the
    HTTP listener are stripped: a handler receives its already-parsed inputs
    and answers with a result or an error. `Date.now()` is a parameter. */
module Server {
  import opened Common
  import JsString

  /** The record kept per user in the `users` dictionary. */
  datatype User = User(username: string)

  /** A task: its id, its name and its position on the map in percent. */
  datatype Task = Task(id: int, name: string, x: int, y: int)

  /** A coupon issued for completing a task. */
  datatype Coupon = Coupon(id: int, username: string, taskName: string, reward: string, time: int)

  /** The fixed task list. */
  const Tasks: seq<Task> := [
    Task(1, "深坑老街", 12, 38),
    Task(2, "豆腐博物館", 48, 42),
    Task(3, "阿婆豆腐店", 70, 60),
    Task(4, "吊橋入口", 30, 18),
    Task(5, "深坑茶園步道", 60, 25)
  ]

  /** Appended to the task name to form a coupon's reward text. */
  const RewardSuffix: string := " 專屬優惠券"

  const MissingUsername: HttpError := HttpError(400, "Missing username")
  const TaskNotFound: HttpError := HttpError(404, "Task not found")

  /** JavaScript's `!username` for a request field that is absent or a string:
      true for an absent field and for the empty string. */
  predicate Falsy(username: Option<string>): (r: bool)
    ensures !r ==> username.Some? && |username.value| > 0
  {
    username.None? || username.value == ""
  }

  /** The login guard `!username || username.trim() === ""`: it rejects
      exactly the absent name and the names made of white space only
      (the empty name among them). */
  predicate LoginRejects(username: Option<string>): (r: bool)
    ensures r <==> username.None? || JsString.Blank(username.value)
    ensures Falsy(username) ==> r
  {
    Falsy(username) || JsString.Trim(username.value) == ""
  }

  // ---------------------------------------------------------------------
  // Tasks

  /** `GET /api/tasks`: the task list as it is; its ids are 1 to 5 in order. */
  function GetTasks(): (r: seq<Task>)
    ensures r == Tasks
    ensures |r| == 5 && forall i :: 0 <= i < |r| ==> r[i].id == i + 1
  {
    Tasks
  }

  /** `ts.find(t => t.id === id)`: a task with that id, if there is one
      (the first; the task ids are distinct, so it is the only one). */
  function Find(ts: seq<Task>, id: int): (r: Option<Task>)
    ensures r.None? <==> forall i :: 0 <= i < |ts| ==> ts[i].id != id
    ensures r.Some? ==> r.value in ts && r.value.id == id
    decreases |ts|
  {
    if ts == [] then None
    else if ts[0].id == id then Some(ts[0])
    else Find(ts[1..], id)
  }

  /** The task lookup of `complete`. The route parameter goes through
      `parseInt`; `None` stands for a parameter that is not a number (NaN),
      which matches no task. */
  function FindTask(taskId: Option<int>): (r: Option<Task>)
    ensures r.Some? <==> taskId.Some? && 1 <= taskId.value <= |Tasks|
    ensures r.Some? ==> r.value == Tasks[taskId.value - 1]
  {
    if taskId.None? then None else Find(Tasks, taskId.value)
  }

  // ---------------------------------------------------------------------
  // Coupons

  /** `coupons.filter(c => c.username === username)`. */
  function CouponsOf(cs: seq<Coupon>, username: string): (r: seq<Coupon>)
    ensures |r| <= |cs|
    ensures forall i :: 0 <= i < |r| ==> r[i].username == username
    decreases |cs|
  {
    if cs == [] then []
    else (if cs[0].username == username then [cs[0]] else []) + CouponsOf(cs[1..], username)
  }

  /** The filter keeps exactly the coupons of that user. */
  lemma {:induction false} CouponsOfMembers(cs: seq<Coupon>, username: string)
    ensures forall c :: c in CouponsOf(cs, username) <==> c in cs && c.username == username
    decreases |cs|
  {
    if cs != [] {
      CouponsOfMembers(cs[1..], username);
      assert forall c :: c in cs <==> c == cs[0] || c in cs[1..];
    }
  }

  /** Filtering distributes over concatenation. */
  lemma {:induction false} CouponsOfAppend(a: seq<Coupon>, b: seq<Coupon>, username: string)
    ensures CouponsOf(a + b, username) == CouponsOf(a, username) + CouponsOf(b, username)
    decreases |a|
  {
    if a == [] {
      assert a + b == b;
    } else {
      assert (a + b)[0] == a[0] && (a + b)[1..] == a[1..] + b;
      CouponsOfAppend(a[1..], b, username);
    }
  }

  /** Appending a coupon extends its owner's list by that coupon, at the end,
      and leaves every other user's list as it was. */
  lemma CouponsOfPush(cs: seq<Coupon>, c: Coupon, username: string)
    ensures CouponsOf(cs + [c], username)
         == CouponsOf(cs, username) + (if c.username == username then [c] else [])
  {
    CouponsOfAppend(cs, [c], username);
    assert CouponsOf([c], username) == (if c.username == username then [c] else []) + CouponsOf([], username);
  }

  /** Two appended coupons of one user extend that user's list by both, in
      the order they were issued. */
  lemma CouponsOfPushTwo(cs: seq<Coupon>, c1: Coupon, c2: Coupon, username: string)
    requires c1.username == username && c2.username == username
    ensures CouponsOf(cs + [c1, c2], username) == CouponsOf(cs, username) + [c1, c2]
  {
    CouponsOfPush(cs, c1, username);
    CouponsOfPush(cs + [c1], c2, username);
    assert cs + [c1] + [c2] == cs + [c1, c2];
  }

  /** A user with no coupons gets the empty list, not an error. */
  lemma CouponsOfNone(cs: seq<Coupon>, username: string)
    requires forall i :: 0 <= i < |cs| ==> cs[i].username != username
    ensures CouponsOf(cs, username) == []
  {
    CouponsOfMembers(cs, username);
  }

  /** The coupon at index i has id i + 1. */
  ghost predicate IdsSequential(cs: seq<Coupon>)
  {
    forall i :: 0 <= i < |cs| ==> cs[i].id == i + 1
  }

  ghost predicate IdsIncreasing(cs: seq<Coupon>)
  {
    forall i, j :: 0 <= i < j < |cs| ==> cs[i].id < cs[j].id
  }

  /** Filtering keeps insertion order: with increasing ids, a user's coupons
      come out with increasing ids too. */
  lemma {:induction false} CouponsOfInOrder(cs: seq<Coupon>, username: string)
    requires IdsIncreasing(cs)
    ensures IdsIncreasing(CouponsOf(cs, username))
    decreases |cs|
  {
    if cs != [] {
      var rest := CouponsOf(cs[1..], username);
      CouponsOfInOrder(cs[1..], username);
      CouponsOfMembers(cs[1..], username);
      forall k | 0 <= k < |rest|
        ensures cs[0].id < rest[k].id
      {
        assert rest[k] in cs[1..];
      }
    }
  }

  // ---------------------------------------------------------------------
  // The store

  class Store {
    /** `users`: username to user record. */
    var users: map<string, User>
    /** `coupons`: every coupon issued, in issue order. */
    var coupons: seq<Coupon>

    /** Each user record carries its own key, and coupon ids count up from
        1 with their position. */
    ghost predicate Valid()
      reads this
    {
      && (forall name :: name in users ==> users[name] == User(name))
      && IdsSequential(coupons)
    }

    /** The store at server start: no users, no coupons. */
    constructor ()
      ensures Valid() && users == map[] && coupons == []
    {
      users, coupons := map[], [];
    }

    /** `POST /api/login`: reject a missing or blank name; otherwise create
        the user on first sight and answer with its record. The key is the
        name as given, not trimmed. */
    method Login(username: Option<string>) returns (r: Result<User>)
      requires Valid()
      modifies this`users
      ensures Valid()
      ensures LoginRejects(username) ==> r == Err(MissingUsername) && users == old(users)
      ensures !LoginRejects(username) ==>
                && r == Ok(User(username.value))
                && users == old(users)[username.value := User(username.value)]
      ensures !LoginRejects(username) && username.value in old(users) ==> users == old(users)
    {
      if username.None? || username.value == "" || JsString.Trim(username.value) == "" {
        return Err(MissingUsername);
      }
      var name := username.value;
      if name !in users {
        users := users[name := User(name)];
      }
      return Ok(users[name]);
    }

    /** `POST /api/tasks/:id/complete`: a missing name answers 400 and an
        unknown task 404, both leaving the coupons alone; otherwise one new
        coupon, numbered after the ones before it, is appended. Neither the
        user list nor earlier coupons are consulted: repeating the call
        issues another coupon. */
    method Complete(taskId: Option<int>, username: Option<string>, now: int) returns (r: Result<Coupon>)
      requires Valid()
      modifies this`coupons
      ensures Valid()
      ensures Falsy(username) ==> r == Err(MissingUsername) && coupons == old(coupons)
      ensures !Falsy(username) && FindTask(taskId).None? ==>
                r == Err(TaskNotFound) && coupons == old(coupons)
      ensures !Falsy(username) && FindTask(taskId).Some? ==>
                var t := FindTask(taskId).value;
                && r == Ok(Coupon(|old(coupons)| + 1, username.value, t.name, t.name + RewardSuffix, now))
                && coupons == old(coupons) + [r.value]
    {
      if username.None? || username.value == "" {
        return Err(MissingUsername);
      }
      var task := FindTask(taskId);
      if task.None? {
        return Err(TaskNotFound);
      }
      var coupon := Coupon(|coupons| + 1, username.value, task.value.name,
                           task.value.name + RewardSuffix, now);
      coupons := coupons + [coupon];
      return Ok(coupon);
    }

    /** A user's coupons come back in the order they were issued. */
    lemma GetCouponsInOrder(username: Option<string>)
      requires Valid()
      ensures var r := GetCoupons(username); r.Ok? ==> IdsIncreasing(r.value)
    {
      if !Falsy(username) {
        CouponsOfInOrder(coupons, username.value);
      }
    }

    /** `GET /api/coupons?username=`: a missing name answers 400; otherwise
        exactly the coupons issued to that name. */
    function GetCoupons(username: Option<string>): (r: Result<seq<Coupon>>)
      reads this
      ensures r.Err? <==> Falsy(username)
      ensures r.Err? ==> r.error == MissingUsername
      ensures r.Ok? ==> forall c :: c in r.value <==> c in coupons && c.username == username.value
    {
      if username.None? || username.value == "" then Err(MissingUsername)
      else
        CouponsOfMembers(coupons, username.value);
        Ok(CouponsOf(coupons, username.value))
    }
  }

  // ---------------------------------------------------------------------
  // The `users` object as the source has it

  /** Property names a plain JavaScript object inherits from
      `Object.prototype`; reading `users[name]` for one of them yields a
      truthy inherited value even though no user of that name exists. */
  const InheritedKeys: set<string> := {
    "constructor", "hasOwnProperty", "isPrototypeOf", "propertyIsEnumerable",
    "toLocaleString", "toString", "valueOf", "__proto__",
    "__defineGetter__", "__defineSetter__", "__lookupGetter__", "__lookupSetter__"
  }

  /** What `users[name]` reads on a plain object: an own user record, an
      inherited member of `Object.prototype`, or `undefined`. */
  datatype Lookup = OwnUser(user: User) | InheritedMember(key: string) | Undefined

  function LookupAsWritten(users: map<string, User>, name: string): (r: Lookup)
    ensures r.OwnUser? <==> name in users
    ensures r.OwnUser? ==> r.user == users[name]
    ensures r.InheritedMember? <==> name !in users && name in InheritedKeys
  {
    if name in users then OwnUser(users[name])
    else if name in InheritedKeys then InheritedMember(name)
    else Undefined
  }

  /** The insert-and-answer part of `login` on a plain object, for a name
      that passed the guard: insert only when `users[name]` is falsy, then
      answer with `users[name]`. */
  function LoginAsWritten(users: map<string, User>, name: string): (r: (map<string, User>, Lookup))
    ensures name in users ==> r == (users, OwnUser(users[name]))
    ensures name !in users && name !in InheritedKeys ==> r == (users[name := User(name)], OwnUser(User(name)))
    ensures name !in users && name in InheritedKeys ==> r == (users, InheritedMember(name))
  {
    if LookupAsWritten(users, name).Undefined? then
      var users' := users[name := User(name)];
      (users', LookupAsWritten(users', name))
    else
      (users, LookupAsWritten(users, name))
  }

  /** Logging in as "constructor" on a fresh server creates no user and
      answers with `Object.prototype.constructor` instead of a user record. */
  lemma LoginAsWrittenInheritedName()
    ensures LoginAsWritten(map[], "constructor") == (map[], InheritedMember("constructor"))
  {
  }

  /** Logging in twice with the same name answers the same record twice and
      adds the key once. */
  method LoginTwice(s: Store, name: string) returns (r1: Result<User>, r2: Result<User>)
    requires s.Valid() && !LoginRejects(Some(name))
    modifies s
    ensures s.Valid() && r1 == r2 == Ok(User(name))
    ensures s.users == old(s.users)[name := User(name)] && s.coupons == old(s.coupons)
  {
    r1 := s.Login(Some(name));
    r2 := s.Login(Some(name));
  }

  /** Completing the same task twice for the same name issues two coupons,
      numbered one after the other, and both show up for that name in order. */
  method CompleteTwice(s: Store, taskId: int, name: string, t1: int, t2: int)
    returns (r1: Result<Coupon>, r2: Result<Coupon>)
    requires s.Valid() && name != "" && 1 <= taskId <= |Tasks|
    modifies s`coupons
    ensures s.Valid() && r1.Ok? && r2.Ok?
    ensures s.users == old(s.users)
    ensures r1.value.id == |old(s.coupons)| + 1 && r2.value.id == |old(s.coupons)| + 2
    ensures r1.value.taskName == r2.value.taskName == Tasks[taskId - 1].name
    ensures s.coupons == old(s.coupons) + [r1.value, r2.value]
    ensures s.GetCoupons(Some(name))
         == Ok(CouponsOf(old(s.coupons), name) + [r1.value, r2.value])
  {
    ghost var before := s.coupons;
    r1 := s.Complete(Some(taskId), Some(name), t1);
    r2 := s.Complete(Some(taskId), Some(name), t2);
    CouponsOfPushTwo(before, r1.value, r2.value, name);
  }
}
