/** The Flask API's write endpoints over three tables: users (by unique
    username), categories (by name) and time entries. A JSON body is a map
    from field names to strings, `None` for a JSON body that is falsy to the
    handlers' `not data` test (`null` or `{}`); an
    ISO 8601 timestamp is read by `parseIso`, which stands for
    `datetime.fromisoformat` after the `Z` → `+00:00` rewrite. */
module Server {
  import opened Wrappers
  import opened Text

  type Body = Option<map<string, string>>

  /** What `fromisoformat` makes of a timestamp: an error, a time without
      an offset, or an instant with one, as UTC milliseconds. */
  datatype IsoTime = Malformed | Naive | Aware(utcMs: int)

  /** A response: the HTTP status, its `message` or `error` text, and the
      id it reports, if any. */
  datatype Reply = Reply(status: int, message: string, id: Option<nat>)

  /** The outcome of a handler's checks on the request alone. */
  datatype Checked<T> = Pass(value: T) | Fail(reply: Reply)

  datatype TimeEntry = TimeEntry(userId: nat, categoryId: nat, startTime: int, endTime: int)

  const NameLength: string := "Username must be between 1 and 100 characters"
  const PasswordLength: string := "Password must be at least 6 characters"
  const NotIso: string := "Datetime must be ISO 8601 format with timezone"
  const NoOffset: string := "Timezone information required (ISO 8601 with offset)"
  const NotAfter: string := "end_time must be after start_time"

  function BadRequest<T>(message: string): Checked<T> {
    Fail(Reply(400, message, None))
  }

  /** Python's `not data`: no body, or an empty one. */
  predicate Falsy(body: Body) {
    body.None? || body.value == map[]
  }

  /** A name between 1 and 100 characters that neither starts nor ends
      with whitespace, as every name stored in the users and category
      tables is. */
  predicate GoodName(name: string) {
    1 <= |name| <= 100 && !IsSpace(name[0]) && !IsSpace(name[|name| - 1])
  }

  /** `register_user`'s checks: both fields present, then the stripped
      username of 1 to 100 characters, then a password of at least 6. */
  function CheckRegistration(body: Body): (c: Checked<(string, string)>)
    ensures c.Pass? <==>
              && !Falsy(body) && "username" in body.value && "password" in body.value
              && 1 <= |Strip(body.value["username"])| <= 100 && |body.value["password"]| >= 6
    ensures c.Pass? ==> c.value == (Strip(body.value["username"]), body.value["password"]) && GoodName(c.value.0)
    ensures c.Fail? ==> c.reply.status == 400 && c.reply.id == None
    ensures c.Fail? && !Falsy(body) && "username" in body.value && "password" in body.value
            && !(1 <= |Strip(body.value["username"])| <= 100)
            ==> c.reply.message == NameLength
  {
    if Falsy(body) || "username" !in body.value || "password" !in body.value then
      BadRequest("Username and password are required")
    else
      var username := Strip(body.value["username"]);
      var password := body.value["password"];
      if username == [] || |username| > 100 then BadRequest(NameLength)
      else if password == [] || |password| < 6 then BadRequest(PasswordLength)
      else Pass((username, password))
  }

  /** `create_category`'s checks: a `name` field whose stripped form has
      1 to 100 characters. */
  function CheckCategoryName(body: Body): (c: Checked<string>)
    ensures c.Pass? <==> !Falsy(body) && "name" in body.value && 1 <= |Strip(body.value["name"])| <= 100
    ensures c.Pass? ==> c.value == Strip(body.value["name"]) && GoodName(c.value)
    ensures c.Fail? ==> c.reply.status == 400 && c.reply.id == None
  {
    if Falsy(body) || "name" !in body.value then BadRequest("Category name is required")
    else
      var name := Strip(body.value["name"]);
      if name == [] || |name| > 100 then BadRequest("Category name must be between 1 and 100 characters")
      else Pass(name)
  }

  /** The timestamp checks both entry handlers share: both parse (else
      400), both carry an offset (else 400), and the end is after the
      start (else 400). */
  function CheckInterval(startText: string, endText: string, parseIso: string -> IsoTime): (c: Checked<(int, int)>)
    ensures c.Pass? <==>
              parseIso(startText).Aware? && parseIso(endText).Aware?
              && parseIso(startText).utcMs < parseIso(endText).utcMs
    ensures c.Pass? ==> c.value == (parseIso(startText).utcMs, parseIso(endText).utcMs)
    ensures c.Fail? ==> c.reply.status == 400 && c.reply.id == None
    ensures c.Fail? ==>
              c.reply.message == (if parseIso(startText).Malformed? || parseIso(endText).Malformed? then NotIso
                                  else if parseIso(startText).Naive? || parseIso(endText).Naive? then NoOffset
                                  else NotAfter)
  {
    match (parseIso(startText), parseIso(endText))
    case (Malformed, _) => BadRequest(NotIso)
    case (_, Malformed) => BadRequest(NotIso)
    case (Aware(s), Aware(e)) => if e <= s then BadRequest(NotAfter) else Pass((s, e))
    case _ => BadRequest(NoOffset)
  }

  /** What `create_time_entry` takes from a request before any lookup: the
      stripped username and category, and the interval. */
  datatype NewEntry = NewEntry(username: string, category: string, startTime: int, endTime: int)

  /** `create_time_entry`'s checks: all four fields present, then the
      interval. */
  function CheckNewEntry(body: Body, parseIso: string -> IsoTime): (c: Checked<NewEntry>)
    ensures c.Pass? <==>
              && !Falsy(body)
              && "username" in body.value && "category" in body.value
              && "start_time" in body.value && "end_time" in body.value
              && CheckInterval(body.value["start_time"], body.value["end_time"], parseIso).Pass?
    ensures c.Pass? ==>
              var i := CheckInterval(body.value["start_time"], body.value["end_time"], parseIso).value;
              c.value == NewEntry(Strip(body.value["username"]), Strip(body.value["category"]), i.0, i.1)
    ensures c.Pass? ==> c.value.startTime < c.value.endTime
    ensures c.Fail? ==> c.reply.status == 400
  {
    if Falsy(body) || "username" !in body.value || "category" !in body.value
       || "start_time" !in body.value || "end_time" !in body.value
    then BadRequest("username, category, start_time and end_time are required")
    else
      match CheckInterval(body.value["start_time"], body.value["end_time"], parseIso)
      case Fail(r) => Fail(r)
      case Pass((s, e)) => Pass(NewEntry(Strip(body.value["username"]), Strip(body.value["category"]), s, e))
  }

  /** `data.get(key, default)`. */
  function Get(fields: map<string, string>, key: string, default: string): string {
    if key in fields then fields[key] else default
  }

  /** What `update_time_entry` takes from a request: the stripped category
      and the interval. */
  datatype Change = Change(category: string, startTime: int, endTime: int)

  /** `update_time_entry`'s checks: a body, then a category, start and end
      that are present and not empty, then the interval. */
  function CheckChange(body: Body, parseIso: string -> IsoTime): (c: Checked<Change>)
    ensures c.Pass? <==>
              && !Falsy(body)
              && Strip(Get(body.value, "category", "")) != ""
              && Get(body.value, "start_time", "") != "" && Get(body.value, "end_time", "") != ""
              && CheckInterval(body.value["start_time"], body.value["end_time"], parseIso).Pass?
    ensures c.Pass? ==>
              var i := CheckInterval(body.value["start_time"], body.value["end_time"], parseIso).value;
              c.value == Change(Strip(body.value["category"]), i.0, i.1)
    ensures c.Pass? ==> c.value.startTime < c.value.endTime
    ensures c.Fail? ==> c.reply.status == 400
  {
    if Falsy(body) then BadRequest("Request body is required")
    else
      var category := Strip(Get(body.value, "category", ""));
      if category == [] || Get(body.value, "start_time", "") == [] || Get(body.value, "end_time", "") == []
      then BadRequest("category, start_time and end_time are required")
      else
        match CheckInterval(body.value["start_time"], body.value["end_time"], parseIso)
        case Fail(r) => Fail(r)
        case Pass((s, e)) => Pass(Change(category, s, e))
  }

  /** A table keyed by name: good names, ids below the counter. */
  ghost predicate NamesValid(table: map<string, nat>, next: nat) {
    forall name :: name in table ==> GoodName(name) && table[name] < next
  }

  /** The entries table: ids below the counter, positive intervals, and
      user and category ids among the existing ones. */
  ghost predicate EntriesValid(entries: map<nat, TimeEntry>, next: nat, userIds: set<nat>, categoryIds: set<nat>) {
    forall id :: id in entries ==>
      && id < next
      && entries[id].startTime < entries[id].endTime
      && entries[id].userId in userIds
      && entries[id].categoryId in categoryIds
  }

  /** The database: usernames and category names to their ids, entries by
      id, and the next `AUTO_INCREMENT` value of each table. */
  class Store {
    var users: map<string, nat>
    var categories: map<string, nat>
    var entries: map<nat, TimeEntry>
    var nextUserId: nat
    var nextCategoryId: nat
    var nextEntryId: nat

    /** Every id is below its table's counter; names are stripped and of
        1 to 100 characters; every entry spans a positive interval and
        refers to an existing user and category. */
    ghost predicate Valid()
      reads this
    {
      && NamesValid(users, nextUserId)
      && NamesValid(categories, nextCategoryId)
      && EntriesValid(entries, nextEntryId, users.Values, categories.Values)
    }

    constructor()
      ensures Valid()
      ensures users == map[] && categories == map[] && entries == map[]
    {
      users := map[];
      categories := map[];
      entries := map[];
      nextUserId := 1;
      nextCategoryId := 1;
      nextEntryId := 1;
    }

    /** `register_user`: 400 for a bad request, 409 for a taken username,
        otherwise 201 and one new user. The password is hashed and stored
        by a library outside the model. */
    method RegisterUser(body: Body) returns (reply: Reply)
      requires Valid()
      modifies this
      ensures Valid()
      ensures CheckRegistration(body).Fail? ==> reply == CheckRegistration(body).reply && users == old(users)
      ensures CheckRegistration(body).Pass? && CheckRegistration(body).value.0 in old(users) ==>
                reply == Reply(409, "Username already exists", None) && users == old(users)
      ensures CheckRegistration(body).Pass? && CheckRegistration(body).value.0 !in old(users) ==>
                && reply == Reply(201, "User registered successfully", Some(old(nextUserId)))
                && users == old(users)[CheckRegistration(body).value.0 := old(nextUserId)]
      ensures reply.status == 201 || users == old(users)
      ensures categories == old(categories) && entries == old(entries)
      ensures nextCategoryId == old(nextCategoryId) && nextEntryId == old(nextEntryId)
    {
      match CheckRegistration(body)
      case Fail(r) => return r;
      case Pass((username, _)) =>
        if username in users {
          return Reply(409, "Username already exists", None);
        }
        users := users[username := nextUserId];
        reply := Reply(201, "User registered successfully", Some(nextUserId));
        nextUserId := nextUserId + 1;
    }

    /** `create_category`: 400 for a bad name; 200 with the existing id when
        the name is taken, inserting nothing; otherwise 201 and one new
        category. */
    method CreateCategory(body: Body) returns (reply: Reply)
      requires Valid()
      modifies this
      ensures Valid()
      ensures CheckCategoryName(body).Fail? ==> reply == CheckCategoryName(body).reply && categories == old(categories)
      ensures CheckCategoryName(body).Pass? && CheckCategoryName(body).value in old(categories) ==>
                && reply == Reply(200, "Category already exists", Some(old(categories)[CheckCategoryName(body).value]))
                && categories == old(categories)
      ensures CheckCategoryName(body).Pass? && CheckCategoryName(body).value !in old(categories) ==>
                && reply == Reply(201, "Category created successfully", Some(old(nextCategoryId)))
                && categories == old(categories)[CheckCategoryName(body).value := old(nextCategoryId)]
      ensures CheckCategoryName(body).Pass? ==> CheckCategoryName(body).value in categories
      ensures users == old(users) && entries == old(entries)
      ensures nextUserId == old(nextUserId) && nextEntryId == old(nextEntryId)
    {
      match CheckCategoryName(body)
      case Fail(r) => return r;
      case Pass(name) =>
        if name in categories {
          return Reply(200, "Category already exists", Some(categories[name]));
        }
        categories := categories[name := nextCategoryId];
        reply := Reply(201, "Category created successfully", Some(nextCategoryId));
        nextCategoryId := nextCategoryId + 1;
    }

    /** `create_time_entry`: 400 for a bad request before any lookup; then
        404 for an unknown user, then 404 for an unknown category;
        otherwise 201 and exactly one new entry. */
    method CreateTimeEntry(body: Body, parseIso: string -> IsoTime) returns (reply: Reply)
      requires Valid()
      modifies this
      ensures Valid()
      ensures CheckNewEntry(body, parseIso).Fail? ==> reply == CheckNewEntry(body, parseIso).reply
      ensures CheckNewEntry(body, parseIso).Pass? ==>
                var n := CheckNewEntry(body, parseIso).value;
                && (n.username !in old(users) ==> reply == Reply(404, "User not found", None))
                && (n.username in old(users) && n.category !in old(categories) ==>
                      reply == Reply(404, "Category not found", None))
                && (n.username in old(users) && n.category in old(categories) ==>
                      && reply == Reply(201, "Time entry created successfully", Some(old(nextEntryId)))
                      && entries == old(entries)[old(nextEntryId) :=
                           TimeEntry(old(users)[n.username], old(categories)[n.category], n.startTime, n.endTime)])
      ensures reply.status == 201 <==> entries != old(entries)
      ensures reply.status == 201 ==> old(nextEntryId) !in old(entries) && |entries| == |old(entries)| + 1
      ensures users == old(users) && categories == old(categories)
      ensures nextUserId == old(nextUserId) && nextCategoryId == old(nextCategoryId)
    {
      match CheckNewEntry(body, parseIso)
      case Fail(r) => return r;
      case Pass(n) =>
        if n.username !in users {
          return Reply(404, "User not found", None);
        }
        if n.category !in categories {
          return Reply(404, "Category not found", None);
        }
        assert nextEntryId !in entries;
        entries := entries[nextEntryId := TimeEntry(users[n.username], categories[n.category], n.startTime, n.endTime)];
        reply := Reply(201, "Time entry created successfully", Some(nextEntryId));
        nextEntryId := nextEntryId + 1;
    }

    /** Whether `entryId` is an entry of the user named `username` (the
        join of `update_time_entry`'s ownership query). */
    predicate Owns(username: string, entryId: nat)
      reads this
    {
      entryId in entries && username in users && users[username] == entries[entryId].userId
    }

    /** `update_time_entry`: 401 without a token identity; 400 for a bad
        request; 404 when the entry is not the caller's, then 404 for an
        unknown category; otherwise 200, and only that entry's category,
        start and end change. */
    method UpdateTimeEntry(identity: Option<string>, entryId: nat, body: Body, parseIso: string -> IsoTime)
      returns (reply: Reply)
      requires Valid()
      modifies this
      ensures Valid()
      ensures identity.None? ==> reply.status == 401
      ensures identity.Some? && CheckChange(body, parseIso).Fail? ==> reply == CheckChange(body, parseIso).reply
      ensures identity.Some? && CheckChange(body, parseIso).Pass? ==>
                var c := CheckChange(body, parseIso).value;
                && (!old(Owns(identity.value, entryId)) ==> reply == Reply(404, "Entry not found or access denied", None))
                && (old(Owns(identity.value, entryId)) && c.category !in old(categories) ==>
                      reply == Reply(404, "Category not found", None))
                && (old(Owns(identity.value, entryId)) && c.category in old(categories) ==>
                      && reply == Reply(200, "Entry updated successfully", Some(entryId))
                      && entries == old(entries)[entryId := old(entries)[entryId].(
                           categoryId := old(categories)[c.category], startTime := c.startTime, endTime := c.endTime)])
      ensures reply.status != 200 ==> entries == old(entries)
      ensures reply.status == 200 ==> identity.Some? && old(Owns(identity.value, entryId))
      ensures entries.Keys == old(entries.Keys)
      ensures forall id :: id in entries && id != entryId ==> entries[id] == old(entries)[id]
      ensures users == old(users) && categories == old(categories)
      ensures nextUserId == old(nextUserId) && nextCategoryId == old(nextCategoryId) && nextEntryId == old(nextEntryId)
    {
      if identity.None? {
        return Reply(401, "Missing or invalid token", None);
      }
      match CheckChange(body, parseIso)
      case Fail(r) => return r;
      case Pass(c) => reply := ApplyChange(identity.value, entryId, c);
    }

    /** The database part of `update_time_entry`, for a request that passed
        its checks: 404 unless the caller owns the entry, then 404 for an
        unknown category; otherwise 200 and only that entry changes. */
    method ApplyChange(username: string, entryId: nat, c: Change) returns (reply: Reply)
      requires Valid() && c.startTime < c.endTime
      modifies this
      ensures Valid()
      ensures !old(Owns(username, entryId)) ==> reply == Reply(404, "Entry not found or access denied", None)
      ensures old(Owns(username, entryId)) && c.category !in old(categories) ==>
                reply == Reply(404, "Category not found", None)
      ensures old(Owns(username, entryId)) && c.category in old(categories) ==>
                && reply == Reply(200, "Entry updated successfully", Some(entryId))
                && entries == old(entries)[entryId := old(entries)[entryId].(
                     categoryId := old(categories)[c.category], startTime := c.startTime, endTime := c.endTime)]
      ensures reply.status != 200 ==> entries == old(entries)
      ensures entries.Keys == old(entries.Keys)
      ensures forall id :: id in entries && id != entryId ==> entries[id] == old(entries)[id]
      ensures users == old(users) && categories == old(categories)
      ensures nextUserId == old(nextUserId) && nextCategoryId == old(nextCategoryId) && nextEntryId == old(nextEntryId)
    {
      if !Owns(username, entryId) {
        return Reply(404, "Entry not found or access denied", None);
      }
      if c.category !in categories {
        return Reply(404, "Category not found", None);
      }
      entries := entries[entryId := entries[entryId].(categoryId := categories[c.category],
                                                       startTime := c.startTime, endTime := c.endTime)];
      reply := Reply(200, "Entry updated successfully", Some(entryId));
    }
  }

  /** Creating the same category twice: the second request answers 200
      with the id the first one reported, and changes nothing. */
  method CreateCategoryTwice(store: Store, body: Body) returns (first: Reply, second: Reply)
    requires store.Valid()
    modifies store
    ensures store.Valid()
    ensures CheckCategoryName(body).Pass? ==>
              second.status == 200 && second.id == first.id && first.status in {200, 201}
    ensures CheckCategoryName(body).Fail? ==> first == second && first.status == 400
    ensures CheckCategoryName(body).Pass? ==>
              first.id.Some? && store.categories == old(store.categories)[CheckCategoryName(body).value := first.id.value]
  {
    first := store.CreateCategory(body);
    second := store.CreateCategory(body);
  }
}
