# Shenkeng map game: player, camera and coupon store in Dafny

This project models a small map-exploration game: the player, camera and
key-handling logic of its browser client, and the record store of its
backend. It proves properties about both.

- **Game client** (`public/game.js`). A player sprite walks over a map image.
  Walkability comes from a second "mask" image: a point is walkable when its
  pixel is dark. Each frame:
  - the held arrow keys each attempt one single-axis move, checked on its own;
  - the sprite animation steps a ping-pong frame counter;
  - the camera centres on the player and is clamped to the map.
- **Backend store** (`server.js`). An in-memory dictionary of users, a list of
  issued coupons and a fixed list of five tasks. Four route handlers work on
  them: login, list tasks, complete a task (which issues a coupon) and list a
  user's coupons.

Files:

- `common.dfy`: `Option`, and the `Result`/`HttpError` pair a handler answers with.
- `js_string.dfy`: JavaScript's `String.prototype.trim`, which the login guard uses.
- `mask.dfy`: the mask as a grid of RGBA pixels plus a loaded flag, and `canWalk`.
- `game.dfy`:
  - the `player` and `camera` records as classes whose methods update fields;
  - the value-level functions that specify those methods (`MoveTo`, `Tick`,
    `Dispatch`, `CameraAxis`);
  - the lemmas about those functions;
  - the state update at the top of `gameLoop`.
- `server.dfy`:
  - the store as a class holding `users` and `coupons`;
  - the pure getters as functions;
  - lemmas about the coupon filter;
  - two client methods for the repeated-call scenarios;
  - the finding described below.

Modelling choices:

- Player coordinates are integers. The spawn point and the speed are integers,
  so every position the code reaches is one.
- Camera offsets are reals, because `canvas.width / 2` is a float division in
  JavaScript.
- A key is held when `keys[name]` is present and true. An absent key reads as
  `undefined`, which is falsy.
- The route parameter of `complete` arrives after `parseInt`, as `Option<int>`.
  `None` stands for NaN.
- A request field arrives as `Option<string>`.
- `Date.now()` is passed in as `now`.

Behaviour of the code that the model keeps as written:

- `complete` does not reject a second completion of the same task by the same
  user. It does not check that the user exists either.
- A task's position is only its percentage `x`/`y` on the map. Nothing in
  `public/game.js` compares the player's position with a task's, so walking
  onto a task completes nothing by itself.
- `complete` rejects only an absent or empty username. A white-space-only
  name is accepted there, unlike in `login`.

## Model

| member | source | states |
|---|---|---|
| `JsString.LeadingSpace` | server.js:40 | the count is at most the length, every character before it is white space, and the character at it, if any, is not |
| `JsString.TrailingCut` | server.js:40 | the cut lies between the two bounds, every character from it up to the upper bound is white space, and the one before it, if above the lower bound, is not |
| `JsString.Trim` | server.js:40 | `trim()` is the slice left between the leading and the trailing white space; it is "" exactly when every character is white space, and otherwise neither starts nor ends with white space |
| `Mask.CanWalk` | public/game.js:74-86 | only a point inside a loaded mask can be walkable |
| `Mask.CanWalkNeedsLoadedMask` | public/game.js:74-75 | before the mask has loaded, no point is walkable |
| `Mask.CanWalkOutOfBounds` | public/game.js:77-79 | a point with x<0, y<0, x≥width or y≥height is not walkable |
| `Mask.CanWalkInBounds` | public/game.js:81-85 | in a loaded mask, an in-bounds point is walkable iff r<30, g<30 and b<30 |
| `Mask.CanWalkIgnoresAlpha` | public/game.js:81-85 | changing a pixel's alpha changes no answer |
| `Game.Held` | public/game.js:128-131 | a key is held exactly when `keys` has it and it is `true`; an absent key (`undefined`) is not held |
| `Game.MoveTo` | public/game.js:91-99 | the player lands exactly on the destination when that point is walkable, and otherwise stays where it was |
| `Game.Player.Move` | public/game.js:91-99 | the position becomes `MoveTo` of the old position; speed, size and animation fields are unchanged |
| `Game.Player.constructor` | public/game.js:33-41 | the player starts at (820, 810), speed 4, size 80, frame 0, dir 1, timer 0, and satisfies the animation invariant |
| `Game.Tick` | public/game.js:104-115 | one call either keeps the frame or moves it by `dir` and resets the timer; if the timer is not reset, only the timer went up by one |
| `Game.Ticks` | public/game.js:104-115 | after n calls from a timer in 0..6, the timer is (timer + n) mod 7 |
| `Game.TickStep` | public/game.js:104-115 | one call keeps 0≤frame≤3, dir∈{−1,1}, frame=0⇒dir=1, frame=3⇒dir=−1 and 0≤timer≤6; the frame moves by exactly dir iff the timer was 6, otherwise only the timer counts up |
| `Game.TicksKeepInvariant` | public/game.js:104-115 | after any number of calls the invariant still holds, so the frame always indexes one of the four sprites |
| `Game.TicksFromStart` | public/game.js:104-115 | from the start state, after n calls the frame is the ((n/7) mod 6)-th entry of 0,1,2,3,2,1 and the timer is n mod 7 |
| `Game.AnimationPeriod` | public/game.js:104-115 | the animation from the start state repeats every 42 calls |
| `Game.Player.UpdateAnimation` | public/game.js:104-115 | the animation fields become `Tick` of the old ones and the invariant is preserved; position, speed and size are unchanged |
| `Game.DispatchVertical` | public/game.js:128-129 | Up then Down moves along y only, by at most one step, onto walkable ground or nowhere |
| `Game.DispatchHorizontal` | public/game.js:130-131 | Left then Right moves along x only, by at most one step, onto walkable ground or nowhere |
| `Game.Dispatch` | public/game.js:128-131 | after the four key checks, each axis is at most one speed step from the start, and the player is on walkable ground unless it did not move |
| `Game.DispatchKeys` | public/game.js:128-131 | the four guarded `move` calls leave the player at `Dispatch` of the old position |
| `Game.Walk` | public/game.js:127-131 | after any run of frames the player is where it started or on walkable ground |
| `Game.WalkStaysWalkable` | public/game.js:127-131 | a player who starts on walkable ground stays on it over any run of frames and key states |
| `Game.UnloadedMaskBlocksMovement` | public/game.js:128-131 | while the mask is not loaded, no key moves the player |
| `Game.SlideAlongWall` | public/game.js:128-131 | with Up and Right held and the point above blocked, the player still moves right |
| `Game.UpDownCancel` | public/game.js:128-129 | with Up and Down held and both points open, the two steps cancel |
| `Game.CameraAxis` | public/game.js:48-54 | the offset is ≥0 and ≤ mapSize−canvasSize when the map is at least as wide; it is 0 when the map is narrower; it is the centred value when that is in bounds, 0 when centring would go below 0, and mapSize−canvasSize when centring would go past the far edge |
| `Game.PlayerOnScreen` | public/game.js:48-54 | a player on the map lies within the viewport that the clamped camera shows |
| `Game.Camera.constructor` | public/game.js:46 | the camera starts at (0, 0) |
| `Game.Camera.Update` | public/game.js:48-54 | each camera axis becomes `CameraAxis` of the player's coordinate |
| `Game.UpdateFrame` | public/game.js:127-134 | one frame moves the player to `Dispatch`, steps the animation and updates the camera; the sprite index stays valid |
| `Server.Falsy` | server.js:61 | `!username` is false only for a present, non-empty name |
| `Server.LoginRejects` | server.js:40 | the login guard rejects exactly an absent name and a name made only of white space, and it rejects whatever `!username` rejects |
| `Server.GetTasks` | server.js:52-54 | returns the task list unchanged: five tasks with ids 1 to 5 in order |
| `Server.Find` | server.js:65 | `find` returns None exactly when no task has that id; otherwise it returns a listed task with that id |
| `Server.FindTask` | server.js:65-68 | a task is found iff the parsed id is a number from 1 to 5, and it is the task at that position |
| `Server.CouponsOf` | server.js:91 | the filter is no longer than its input and keeps only coupons of that user |
| `Server.CouponsOfMembers` | server.js:91 | a coupon is in a user's list iff it was issued and belongs to that user |
| `Server.CouponsOfAppend` | server.js:91 | filtering a concatenation gives the concatenation of the filtered parts |
| `Server.CouponsOfPush` | server.js:78 | appending a coupon extends only its owner's list, at the end |
| `Server.CouponsOfPushTwo` | server.js:70-80 | two appended coupons of one user extend that user's list by both, in issue order |
| `Server.CouponsOfNone` | server.js:91-92 | a user without coupons gets the empty list |
| `Server.CouponsOfInOrder` | server.js:91 | with increasing ids, the filtered list also has increasing ids (insertion order) |
| `Server.Store.constructor` | server.js:20-21 | the store starts with no users and no coupons |
| `Server.Store.Login` | server.js:37-49 | a missing or blank name answers 400 "Missing username" with `users` unchanged; otherwise the answer is the record of that exact name, which is added only on first sight |
| `Server.Store.Complete` | server.js:57-81 | a missing or empty name answers 400 and an unknown task 404, both with `coupons` unchanged; otherwise one coupon is appended with id old length + 1, the task's name, name + " 專屬優惠券", the given name and time |
| `Server.Store.GetCouponsInOrder` | server.js:71-91 | a user's coupons come back in issue order: their ids are strictly increasing |
| `Server.Store.GetCoupons` | server.js:84-93 | a missing or empty name answers 400; otherwise the answer holds exactly the coupons of that name |
| `Server.LoginTwice` | server.js:44-48 | logging in twice with one name answers the same record both times and adds the key once |
| `Server.CompleteTwice` | server.js:57-81 | completing one task twice for one user issues two coupons, numbered consecutively, and that user's list grows by both; `users` is unchanged |
| `Server.LookupAsWritten` | server.js:44-48 | `users[username]` on an object literal gives the user's own record exactly when the name is a key, and an inherited member exactly when it is not a key but names an `Object.prototype` member |
| `Server.LoginAsWritten` | server.js:44-48 | on a plain JavaScript object: an existing key is answered with its record and leaves `users` alone; a new name that is not an inherited property is inserted and answered with its own record; a new name that is an inherited property inserts nothing and is answered with the inherited member |
| `Server.LoginAsWrittenInheritedName` | server.js:44-48 | `login` as written, for "constructor" on a fresh server, creates no user and answers with an inherited member |

## Left out

- Canvas drawing, image loading and the `onload` callbacks, the keyboard
  listeners and `requestAnimationFrame` in `public/game.js`: they are browser
  I/O. The mask is a given grid with a `loaded` flag, and the held keys are a
  parameter of each frame.
- `public/main.js`: DOM updates, `fetch`, `localStorage`, audio and the map
  widget. It only displays what the backend answers and calls its routes.
- Express, CORS, static files, JSON body parsing and `app.listen` in
  `server.js`: transport only. Handlers receive parsed inputs.
- `parseInt`'s treatment of strings such as "3abc" (read as 3): the model
  receives the integer it yields, or `None` for NaN.
- Usernames that are not strings. Request fields are modelled as strings only.
  In the source:
  - `login` with a truthy non-string such as `{"username": 5}` throws at
    `trim`, and Express answers 500;
  - `complete` accepts any truthy value, so `{"username": 5}` issues a coupon
    whose username is the number 5 (server.js:61, 72);
  - `GET /api/coupons?username=a&username=a` receives an array, which passes
    `!username` and equals no stored name, so the answer is `[]` with status
    200 (server.js:87-92).
- Player coordinates as JavaScript floats: every reachable position is an
  integer, so they are integers here.
- `Server.Store.Login`: models `users` as a plain dictionary. How the source
  actually behaves on inherited property names is modelled separately by
  `Server.LoginAsWritten` (see Findings).
- `Server.Find`: states that some matching task is returned, not that it is
  the first match. The five task ids are distinct, so there is only one match.

## Findings

| source | as written | input that shows it | evidently intended | confidence | as-written member | corrected member |
|---|---|---|---|---|---|---|
| server.js:44-48 | `users` is an object literal, so `users[username]` also reads the members it inherits from `Object.prototype`, which are truthy | login with username "constructor" on a fresh server: no user is created, and the answer's `user` field is a function, which serialises away | every name that passes the guard gets its own user record | medium, not executed | `Server.LoginAsWrittenInheritedName` | `Server.Store.Login` |
