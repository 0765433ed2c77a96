/** The persistence behind the backend: the `User` model of `models.js`
    over the `user_profiles` table, the profile update of
    `userController.js` that drives it, and the owner-scoped
    `visualizations` table of `visualizationController.js`. A table is a
    sequence of rows and each SQL statement a pure function on it; bcrypt
    and the ids the database assigns are parameters. */
module Store {
  import opened Wrappers
  import opened Values
  import opened Http
  import Lists

  /** A numeric id as JavaScript holds it. */
  function IdValue(id: nat): Value {
    Real(id as real)
  }

  // ---------------------------------------------------------------- users

  /** A `User` instance; any property may be undefined. */
  datatype User = User(id: Value, firstname: Value, lastname: Value, mail: Value, telNr: Value,
                       profilePic: Value, password: Value)

  /** The rows of `user_profiles`. */
  type Users = seq<User>

  /** `rows[0]` of `SELECT * FROM user_profiles WHERE id = ?`, or null. */
  function FindById(db: Users, id: nat): (r: Option<User>)
    ensures r.None? <==> forall u :: u in db ==> u.id != IdValue(id)
    ensures r.Some? ==> r.value in db && r.value.id == IdValue(id)
  {
    Lists.Find(db, HasId(id))
  }

  /** The `WHERE id = ?` test. */
  function HasId(id: nat): User -> bool {
    (u: User) => u.id == IdValue(id)
  }

  /** The row `save` inserts: an empty phone number or picture is stored as null. */
  function InsertedRow(u: User): User {
    u.(telNr := Or(u.telNr, Null), profilePic := Or(u.profilePic, Null))
  }

  /** `save`: refuses a user that already has an id; otherwise hashes the
      password, inserts the row and takes the id the database returns
      (`newId`). The result is the updated instance and table. */
  function Save(u: User, db: Users, hash: Value -> Value, newId: nat): (r: Result<(User, Users), string>)
    ensures r.Err? <==> Truthy(u.id)
    ensures r.Ok? ==>
              && r.value.0 == u.(id := IdValue(newId), password := hash(u.password))
              && r.value.1 == db + [InsertedRow(r.value.0)]
  {
    if Truthy(u.id) then Err("Error saving user: User already exists. Use update() instead.")
    else
      var saved := u.(id := IdValue(newId), password := hash(u.password));
      Ok((saved, db + [InsertedRow(saved)]))
  }

  /** A saved user is found again under the id the database gave it. */
  lemma SaveThenFind(u: User, db: Users, hash: Value -> Value, newId: nat)
    requires !Truthy(u.id) && FindById(db, newId).None?
    ensures FindById(Save(u, db, hash, newId).value.1, newId) == Some(InsertedRow(Save(u, db, hash, newId).value.0))
  {
    var row := InsertedRow(Save(u, db, hash, newId).value.0);
    var db' := db + [row];
    forall j | 0 <= j < |db| ensures !HasId(newId)(db'[j]) {
      assert db'[j] == db[j] && db[j] in db;
    }
    Lists.FindFirst(db', HasId(newId), |db|);
  }

  /** `delete`: refuses without an id, otherwise removes every row with it. */
  function Delete(u: User, db: Users): (r: Result<Users, string>)
    ensures r.Err? <==> !Truthy(u.id)
    ensures r.Ok? ==> Lists.IsSubseq(r.value, db)
    ensures r.Ok? ==> forall v :: v in r.value <==> v in db && v.id != u.id
  {
    if !Truthy(u.id) then Err("Cannot delete user without ID.")
    else Ok(Lists.Filter(db, (v: User) => v.id != u.id))
  }

  /** After a delete the user is gone. */
  lemma DeleteThenFind(u: User, db: Users, id: nat)
    requires u.id == IdValue(id) && Truthy(u.id)
    ensures FindById(Delete(u, db).value, id).None?
  {
  }

  /** `partial[k] !== undefined ? partial[k] : prior`. */
  function Merge(prior: Value, given: Value): (r: Value)
    ensures given.Undefined? ==> r == prior
    ensures !given.Undefined? ==> r == given
  {
    if given.Undefined? then prior else given
  }

  /** `updateProfile(partialProps)` up to the write: refuses without an id;
      copies `firstname`, `lastname`, `mail`, `telNr` and `profile_pic`
      from `partial` when they are not undefined; keeps the id and the
      password. */
  function UpdateProfile(u: User, partial: Record): (r: Result<User, string>)
    ensures r.Err? <==> !Truthy(u.id)
    ensures r.Ok? ==> r.value.id == u.id && r.value.password == u.password
    ensures r.Ok? ==>
              && r.value.firstname == Merge(u.firstname, Get(partial, "firstname"))
              && r.value.lastname == Merge(u.lastname, Get(partial, "lastname"))
              && r.value.mail == Merge(u.mail, Get(partial, "mail"))
              && r.value.telNr == Merge(u.telNr, Get(partial, "telNr"))
              && r.value.profilePic == Merge(u.profilePic, Get(partial, "profile_pic"))
  {
    if !Truthy(u.id) then Err("Cannot update profile without ID.")
    else Ok(u.(firstname := Merge(u.firstname, Get(partial, "firstname")),
               lastname := Merge(u.lastname, Get(partial, "lastname")),
               mail := Merge(u.mail, Get(partial, "mail")),
               telNr := Merge(u.telNr, Get(partial, "telNr")),
               profilePic := Merge(u.profilePic, Get(partial, "profile_pic"))))
  }

  /** Applying the same partial update twice is the same as applying it once. */
  lemma UpdateProfileIdempotent(u: User, partial: Record)
    requires Truthy(u.id)
    ensures UpdateProfile(UpdateProfile(u, partial).value, partial) == UpdateProfile(u, partial)
  {
  }

  /** A partial object naming none of the profile fields changes nothing. */
  lemma UpdateProfileUnnamed(u: User, partial: Record)
    requires Truthy(u.id)
    requires forall k :: k in RawKeys(partial) ==>
               k != "firstname" && k != "lastname" && k != "mail" && k != "telNr" && k != "profile_pic"
    ensures UpdateProfile(u, partial) == Ok(u)
  {
  }

  /** `update()`: refuses without an id, otherwise rewrites every row with
      the instance's id, storing an empty picture as null and leaving the
      password column alone. */
  function Persist(u: User, db: Users): (r: Result<Users, string>)
    ensures r.Err? <==> !Truthy(u.id)
    ensures r.Ok? ==> |r.value| == |db|
    ensures r.Ok? ==> forall i :: 0 <= i < |db| ==>
              r.value[i] == if db[i].id == u.id
                            then db[i].(firstname := u.firstname, lastname := u.lastname, mail := u.mail,
                                        telNr := u.telNr, profilePic := Or(u.profilePic, Null))
                            else db[i]
  {
    if !Truthy(u.id) then Err("Cannot update user without ID.")
    else Ok(seq(|db|, i requires 0 <= i < |db| =>
                if db[i].id == u.id
                then db[i].(firstname := u.firstname, lastname := u.lastname, mail := u.mail,
                            telNr := u.telNr, profilePic := Or(u.profilePic, Null))
                else db[i]))
  }

  /** After the write, looking the user up gives the new profile with the
      stored password. */
  lemma PersistThenFind(u: User, db: Users, id: nat)
    requires u.id == IdValue(id) && Truthy(u.id) && FindById(db, id).Some?
    ensures var prior := FindById(db, id).value;
            FindById(Persist(u, db).value, id)
              == Some(prior.(firstname := u.firstname, lastname := u.lastname, mail := u.mail,
                           telNr := u.telNr, profilePic := Or(u.profilePic, Null)))
  {
    var db' := Persist(u, db).value;
    var prior := FindById(db, id).value;
    var i :| 0 <= i < |db| && db[i] == prior && prior.id == IdValue(id)
             && forall j :: 0 <= j < i ==> db[j].id != IdValue(id);
    assert forall j :: 0 <= j < i ==> !HasId(id)(db'[j]);
    assert HasId(id)(db'[i]);
    Lists.FindFirst(db', HasId(id), i);
  }

  /** The instance's property names in declaration order. */
  const UserKeys: seq<string> := ["id", "firstname", "lastname", "mail", "telNr", "profile_pic", "password"]

  lemma UserKeysDistinct()
    ensures Lists.NoDups(UserKeys)
  {
  }

  /** The instance's own properties in declaration order. */
  function Instance(u: User): (r: Record)
    ensures Get(r, "id") == u.id && Get(r, "firstname") == u.firstname && Get(r, "lastname") == u.lastname
    ensures Get(r, "mail") == u.mail && Get(r, "telNr") == u.telNr && Get(r, "profile_pic") == u.profilePic
    ensures Get(r, "password") == u.password
  {
    var vals := [u.id, u.firstname, u.lastname, u.mail, u.telNr, u.profilePic, u.password];
    UserKeysDistinct();
    LiteralGets(UserKeys, vals);
    var r := Literal(UserKeys, vals);
    assert Get(r, UserKeys[0]) == vals[0];
    assert Get(r, UserKeys[1]) == vals[1];
    assert Get(r, UserKeys[2]) == vals[2];
    assert Get(r, UserKeys[3]) == vals[3];
    assert Get(r, UserKeys[4]) == vals[4];
    assert Get(r, UserKeys[5]) == vals[5];
    assert Get(r, UserKeys[6]) == vals[6];
    r
  }

  /** `const { [k]: _, ...rest } = r`: every property but `k`, in order. */
  function Without(r: Record, k: string): (r': Record)
    ensures k !in RawKeys(r')
    ensures forall k' :: k' in RawKeys(r') <==> k' in RawKeys(r) && k' != k
    ensures forall k' :: k' != k ==> Get(r', k') == Get(r, k')
    decreases |r|
  {
    if |r| == 0 then []
    else
      var rest := Without(r[1..], k);
      if r[0].key == k then rest
      else
        var r' := [r[0]] + rest;
        assert r'[1..] == rest;
        r'
  }

  /** `toJSON()`: the instance without its password; every other property
      reads back unchanged. */
  function ToJson(u: User): (r: Record)
    ensures "password" !in RawKeys(r)
    ensures Get(r, "id") == u.id && Get(r, "firstname") == u.firstname && Get(r, "lastname") == u.lastname
    ensures Get(r, "mail") == u.mail && Get(r, "telNr") == u.telNr && Get(r, "profile_pic") == u.profilePic
  {
    var inst := Instance(u);
    var r := Without(inst, "password");
    assert Get(r, "id") == Get(inst, "id");
    assert Get(r, "firstname") == Get(inst, "firstname");
    assert Get(r, "lastname") == Get(inst, "lastname");
    assert Get(r, "mail") == Get(inst, "mail");
    assert Get(r, "telNr") == Get(inst, "telNr");
    assert Get(r, "profile_pic") == Get(inst, "profile_pic");
    r
  }

  // ------------------------------------------------------ profile update

  /** The profile fields `updateProfile` reads, in the order the request
      body lists them. */
  const ProfileKeys: seq<string> := ["firstname", "lastname", "mail", "telNr", "profile_pic"]

  /** The same fields as the controller names them: `email` for `mail`. */
  const WrittenKeys: seq<string> := ["firstname", "lastname", "email", "telNr", "profile_pic"]

  lemma WrittenKeysDistinct()
    ensures Lists.NoDups(WrittenKeys) && "mail" !in WrittenKeys
  {
  }

  lemma ProfileKeysDistinct()
    ensures Lists.NoDups(ProfileKeys)
  {
  }

  /** The five profile fields of the request body as the controller passes
      them on: the mail address goes under the key `email`, a key
      `updateProfile` never reads. */
  function PatchAsWritten(form: Record): (r: Record)
    ensures Get(r, "mail") == Undefined
    ensures Get(r, "email") == Get(form, "mail")
    ensures Get(r, "firstname") == Get(form, "firstname")
    ensures Get(r, "lastname") == Get(form, "lastname")
    ensures Get(r, "telNr") == Get(form, "telNr")
    ensures Get(r, "profile_pic") == Get(form, "profile_pic")
  {
    var vals := seq(5, i requires 0 <= i < 5 => Get(form, ProfileKeys[i]));
    WrittenKeysDistinct();
    LiteralGets(WrittenKeys, vals);
    var r := Literal(WrittenKeys, vals);
    assert Get(r, WrittenKeys[0]) == vals[0];
    assert Get(r, WrittenKeys[1]) == vals[1];
    assert Get(r, WrittenKeys[2]) == vals[2];
    assert Get(r, WrittenKeys[3]) == vals[3];
    assert Get(r, WrittenKeys[4]) == vals[4];
    r
  }

  /** The same fields under the names `updateProfile` reads. */
  function Patch(form: Record): (r: Record)
    ensures Get(r, "firstname") == Get(form, "firstname")
    ensures Get(r, "lastname") == Get(form, "lastname")
    ensures Get(r, "mail") == Get(form, "mail")
    ensures Get(r, "telNr") == Get(form, "telNr")
    ensures Get(r, "profile_pic") == Get(form, "profile_pic")
  {
    var vals := seq(5, i requires 0 <= i < 5 => Get(form, ProfileKeys[i]));
    ProfileKeysDistinct();
    LiteralGets(ProfileKeys, vals);
    var r := Literal(ProfileKeys, vals);
    assert Get(r, ProfileKeys[0]) == vals[0];
    assert Get(r, ProfileKeys[1]) == vals[1];
    assert Get(r, ProfileKeys[2]) == vals[2];
    assert Get(r, ProfileKeys[3]) == vals[3];
    assert Get(r, ProfileKeys[4]) == vals[4];
    r
  }

  /** As written, a profile update never changes the mail address. */
  lemma MailIgnoredAsWritten(u: User, form: Record)
    requires Truthy(u.id)
    ensures UpdateProfile(u, PatchAsWritten(form)).value.mail == u.mail
  {
  }

  /** A concrete request: the user asks for a new address and keeps the old one. */
  lemma MailIgnoredExample()
    ensures var u := User(IdValue(1), Str("Ada"), Str("L"), Str("old@x"), Null, Null, Str("h"));
            var form := [Field("mail", Str("new@x"))];
            && Get(form, "mail") == Str("new@x")
            && UpdateProfile(u, PatchAsWritten(form)).value.mail == Str("old@x")
  {
    var u := User(IdValue(1), Str("Ada"), Str("L"), Str("old@x"), Null, Null, Str("h"));
    MailIgnoredAsWritten(u, [Field("mail", Str("new@x"))]);
  }

  /** With the corrected patch a given address is taken over, an absent
      one leaves the stored address alone. */
  lemma MailUpdated(u: User, form: Record)
    requires Truthy(u.id)
    ensures !Get(form, "mail").Undefined? ==> UpdateProfile(u, Patch(form)).value.mail == Get(form, "mail")
    ensures Get(form, "mail").Undefined? ==> UpdateProfile(u, Patch(form)).value.mail == u.mail
  {
  }

  /** The `user` object of a reply body `{ user: ... }`; empty when the
      body has none. */
  function UserOf(body: Record): Record {
    match Get(body, "user")
    case Obj(fs) => fs
    case _ => []
  }

  /** The reply to a found user, `{ user: user.toJSON() }`: the profile
      merged with the object handed to `updateProfile`, without its
      password. */
  function ProfileReply(user: User, patch: Record): (reply: Record)
    requires Truthy(user.id)
    ensures RawKeys(reply) == ["user"] && Get(reply, "user").Obj?
    ensures "password" !in RawKeys(UserOf(reply))
    ensures Get(UserOf(reply), "id") == user.id
    ensures Get(UserOf(reply), "firstname") == Merge(user.firstname, Get(patch, "firstname"))
    ensures Get(UserOf(reply), "lastname") == Merge(user.lastname, Get(patch, "lastname"))
    ensures Get(UserOf(reply), "mail") == Merge(user.mail, Get(patch, "mail"))
    ensures Get(UserOf(reply), "telNr") == Merge(user.telNr, Get(patch, "telNr"))
    ensures Get(UserOf(reply), "profile_pic") == Merge(user.profilePic, Get(patch, "profile_pic"))
  {
    [Field("user", Obj(ToJson(UpdateProfile(user, patch).value)))]
  }

  /** The table with the merged row written back: rows of other users are
      untouched, and every row keeps its id and password. */
  function ProfileTable(user: User, patch: Record, db: Users): (table: Users)
    requires Truthy(user.id)
    ensures |table| == |db|
    ensures forall i :: 0 <= i < |db| && db[i].id != user.id ==> table[i] == db[i]
    ensures forall i :: 0 <= i < |db| ==> table[i].id == db[i].id && table[i].password == db[i].password
  {
    Persist(UpdateProfile(user, patch).value, db).value
  }

  /** The endpoint around a given object handed to `updateProfile`: 401
      without a user, 404 when the row is missing, otherwise the merged
      profile without its password together with the new table. */
  function ProfileAnswer(userId: nat, patch: Record, db: Users): (r: Reply<(Record, Users)>)
    ensures userId == 0 <==> r == Refused(Refusal(401, "Not authenticated"))
    ensures userId != 0 && FindById(db, userId).None? <==> r == Refused(Refusal(404, "User not found"))
    ensures r.Answered? <==> userId != 0 && FindById(db, userId).Some?
    ensures r.Answered? ==> "password" !in RawKeys(UserOf(r.body.0))
    ensures r.Answered? ==> Get(UserOf(r.body.0), "id") == IdValue(userId)
    ensures r.Answered? ==>
              r.body == (ProfileReply(FindById(db, userId).value, patch), ProfileTable(FindById(db, userId).value, patch, db))
  {
    if userId == 0 then Refused(Refusal(401, "Not authenticated"))
    else match FindById(db, userId)
      case None => Refused(Refusal(404, "User not found"))
      case Some(user) =>
        assert user.id == Real(userId as real);
        Answered((ProfileReply(user, patch), ProfileTable(user, patch, db)))
  }

  /** `PATCH /profile` as written, for the signed-in user `userId` (0 when
      the token carries none): the name and phone fields of the body are
      merged, but the reply keeps the stored mail address whatever the body
      asks for. */
  function ProfileRequest(userId: nat, form: Record, db: Users): (r: Reply<(Record, Users)>)
    ensures userId == 0 <==> r == Refused(Refusal(401, "Not authenticated"))
    ensures userId != 0 && FindById(db, userId).None? <==> r == Refused(Refusal(404, "User not found"))
    ensures r.Answered? <==> userId != 0 && FindById(db, userId).Some?
    ensures r.Answered? ==> "password" !in RawKeys(UserOf(r.body.0)) && Get(UserOf(r.body.0), "id") == IdValue(userId)
    ensures r.Answered? ==>
              var prior := FindById(db, userId).value;
              && Get(UserOf(r.body.0), "firstname") == Merge(prior.firstname, Get(form, "firstname"))
              && Get(UserOf(r.body.0), "lastname") == Merge(prior.lastname, Get(form, "lastname"))
              && Get(UserOf(r.body.0), "telNr") == Merge(prior.telNr, Get(form, "telNr"))
              && Get(UserOf(r.body.0), "profile_pic") == Merge(prior.profilePic, Get(form, "profile_pic"))
              && Get(UserOf(r.body.0), "mail") == prior.mail
  {
    ProfileAnswer(userId, PatchAsWritten(form), db)
  }

  /** As written, the stored row keeps its mail address after a profile
      update, even when the body names a new one. */
  lemma ProfileRequestKeepsMail(userId: nat, form: Record, db: Users)
    requires ProfileRequest(userId, form, db).Answered?
    ensures FindById(ProfileRequest(userId, form, db).body.1, userId).Some?
    ensures FindById(ProfileRequest(userId, form, db).body.1, userId).value.mail == FindById(db, userId).value.mail
  {
    var user := FindById(db, userId).value;
    assert Truthy(user.id);
    var merged := UpdateProfile(user, PatchAsWritten(form)).value;
    MailIgnoredAsWritten(user, form);
    PersistThenFind(merged, db, userId);
  }

  /** The corrected endpoint: the address of the body reaches
      `updateProfile` under `mail`, so a given address is taken over. */
  function ProfileRequestCorrected(userId: nat, form: Record, db: Users): (r: Reply<(Record, Users)>)
    ensures r.Answered? <==> userId != 0 && FindById(db, userId).Some?
    ensures !r.Answered? ==> r == ProfileRequest(userId, form, db)
    ensures r.Answered? ==> "password" !in RawKeys(UserOf(r.body.0)) && Get(UserOf(r.body.0), "id") == IdValue(userId)
    ensures r.Answered? ==>
              Get(UserOf(r.body.0), "mail") == Merge(FindById(db, userId).value.mail, Get(form, "mail"))
  {
    ProfileAnswer(userId, Patch(form), db)
  }

  /** With the corrected endpoint the stored row carries the requested address. */
  lemma ProfileTableStoresMail(userId: nat, form: Record, db: Users)
    requires ProfileRequestCorrected(userId, form, db).Answered?
    requires !Get(form, "mail").Undefined?
    ensures FindById(ProfileRequestCorrected(userId, form, db).body.1, userId).Some?
    ensures FindById(ProfileRequestCorrected(userId, form, db).body.1, userId).value.mail == Get(form, "mail")
  {
    var user := FindById(db, userId).value;
    assert Truthy(user.id);
    var merged := UpdateProfile(user, Patch(form)).value;
    MailUpdated(user, form);
    PersistThenFind(merged, db, userId);
  }

  // ------------------------------------------------------- visualizations

  /** A row of `visualizations`. */
  datatype Visualization = Visualization(id: nat, owner: nat, kind: Value, title: Value, library: Value,
                                         width: Value, height: Value, data: Value, xaxis: Value, yaxis: Value,
                                         aggregation: Value, filters: Value, interactions: Value)

  /** The fields of a `POST /visualizations` body. */
  datatype VizRequest = VizRequest(kind: Value, title: Value, library: Value, width: Value, height: Value,
                                   data: Value, xaxis: Value, yaxis: Value, aggregation: Value,
                                   filters: Value, interactions: Value)

  type Visualizations = seq<Visualization>

  /** The six fields a visualization cannot be stored without. */
  predicate Complete(b: VizRequest) {
    Truthy(b.kind) && Truthy(b.title) && Truthy(b.library) && Truthy(b.width) && Truthy(b.height) && Truthy(b.data)
  }

  /** The row inserted for a complete request. */
  function VizRow(id: nat, owner: nat, b: VizRequest): (v: Visualization)
    ensures v.id == id && v.owner == owner
    ensures v.kind == b.kind && v.title == b.title && v.library == b.library
    ensures v.width == b.width && v.height == b.height && v.data == b.data
    ensures Truthy(b.xaxis) ==> v.xaxis == b.xaxis
    ensures !Truthy(b.xaxis) ==> v.xaxis == Null
    ensures Truthy(b.yaxis) ==> v.yaxis == b.yaxis
    ensures !Truthy(b.yaxis) ==> v.yaxis == Null
    ensures Truthy(b.aggregation) ==> v.aggregation == b.aggregation
    ensures !Truthy(b.aggregation) ==> v.aggregation == Null
    ensures Truthy(b.filters) ==> v.filters == b.filters
    ensures !Truthy(b.filters) ==> v.filters == Arr([])
    ensures Truthy(b.interactions) ==> v.interactions == b.interactions
    ensures !Truthy(b.interactions) ==> v.interactions == Arr([])
  {
    Visualization(id, owner, b.kind, b.title, b.library, b.width, b.height, b.data,
                  Or(b.xaxis, Null), Or(b.yaxis, Null), Or(b.aggregation, Null),
                  Or(b.filters, Arr([])), Or(b.interactions, Arr([])))
  }

  /** `POST /visualizations`: 400 when a required field is falsy, otherwise
      the row is inserted under the id the database assigns (`newId`); the
      reply carries that id and the new table. */
  function PostViz(owner: nat, b: VizRequest, db: Visualizations, newId: nat): (r: Reply<(nat, Visualizations)>)
    ensures r.Refused? <==> !Complete(b)
    ensures r.Refused? ==> r.why == Refusal(400, "Missing required fields")
    ensures r.Answered? ==> r.body == (newId, db + [VizRow(newId, owner, b)])
  {
    if !Complete(b) then Refused(Refusal(400, "Missing required fields"))
    else Answered((newId, db + [VizRow(newId, owner, b)]))
  }

  /** `SELECT * FROM visualizations WHERE owner = $1`. */
  function ListViz(owner: nat, db: Visualizations): (r: Visualizations)
    ensures forall v :: v in r <==> v in db && v.owner == owner
    ensures Lists.IsSubseq(r, db)
  {
    Lists.Filter(db, (v: Visualization) => v.owner == owner)
  }

  /** The number of rows an owner has, counted directly. */
  function CountOwned(owner: nat, db: Visualizations): nat
    decreases |db|
  {
    if |db| == 0 then 0
    else (if db[0].owner == owner then 1 else 0) + CountOwned(owner, db[1..])
  }

  /** `SELECT COUNT(*)` agrees with the length of the owner's list. */
  lemma {:induction false} CountMatchesList(owner: nat, db: Visualizations)
    ensures CountOwned(owner, db) == |ListViz(owner, db)|
    decreases |db|
  {
    if |db| > 0 {
      CountMatchesList(owner, db[1..]);
    }
  }

  /** A posted visualization is listed for its owner beside the earlier
      ones; in the model's table order it comes last. */
  lemma ListAfterPost(owner: nat, b: VizRequest, db: Visualizations, newId: nat)
    requires Complete(b)
    ensures ListViz(owner, PostViz(owner, b, db, newId).body.1) == ListViz(owner, db) + [VizRow(newId, owner, b)]
    ensures multiset(ListViz(owner, PostViz(owner, b, db, newId).body.1))
            == multiset(ListViz(owner, db)) + multiset{VizRow(newId, owner, b)}
  {
    Lists.FilterAppend(db, [VizRow(newId, owner, b)], (v: Visualization) => v.owner == owner);
  }

  /** `SELECT * … WHERE id = $1 AND owner = $2`: 404 when none matches. */
  function GetViz(id: nat, owner: nat, db: Visualizations): (r: Reply<Visualization>)
    ensures r.Refused? <==> forall v :: v in db ==> !(v.id == id && v.owner == owner)
    ensures r.Refused? ==> r.why == Refusal(404, "Visualization not found or not owned by user")
    ensures r.Answered? ==> r.body in db && r.body.id == id && r.body.owner == owner
  {
    match Lists.Find(db, (v: Visualization) => v.id == id && v.owner == owner)
    case None => Refused(Refusal(404, "Visualization not found or not owned by user"))
    case Some(v) => Answered(v)
  }

  /** A posted visualization can be fetched back by its owner. */
  lemma GetAfterPost(owner: nat, b: VizRequest, db: Visualizations, newId: nat)
    requires Complete(b)
    requires forall v :: v in db ==> v.id != newId
    ensures GetViz(newId, owner, PostViz(owner, b, db, newId).body.1) == Answered(VizRow(newId, owner, b))
  {
    var db' := db + [VizRow(newId, owner, b)];
    var p := (v: Visualization) => v.id == newId && v.owner == owner;
    assert forall j :: 0 <= j < |db| ==> !p(db'[j]) by {
      forall j | 0 <= j < |db| ensures !p(db'[j]) {
        assert db'[j] == db[j] && db[j] in db;
      }
    }
    Lists.FindFirst(db', p, |db|);
  }

  /** `DELETE … WHERE id = $1 AND owner = $2`: 404 when no row matched,
      otherwise the table without the matching rows. */
  function DeleteViz(id: nat, owner: nat, db: Visualizations): (r: Reply<Visualizations>)
    ensures r.Refused? <==> forall v :: v in db ==> !(v.id == id && v.owner == owner)
    ensures r.Refused? ==> r.why == Refusal(404, "Visualization not found or not owned by user")
    ensures r.Answered? ==> Lists.IsSubseq(r.body, db)
    ensures r.Answered? ==> forall v :: v in r.body <==> v in db && !(v.id == id && v.owner == owner)
  {
    if Lists.Find(db, (v: Visualization) => v.id == id && v.owner == owner).None? then
      Refused(Refusal(404, "Visualization not found or not owned by user"))
    else Answered(Lists.Filter(db, (v: Visualization) => !(v.id == id && v.owner == owner)))
  }

  /** A deleted visualization can no longer be fetched. */
  lemma GetAfterDelete(id: nat, owner: nat, db: Visualizations)
    requires DeleteViz(id, owner, db).Answered?
    ensures GetViz(id, owner, DeleteViz(id, owner, db).body).Refused?
  {
  }

  /** Deleting one owner's visualization leaves every other owner's list alone. */
  lemma DeleteKeepsOthers(id: nat, owner: nat, other: nat, db: Visualizations)
    requires other != owner && DeleteViz(id, owner, db).Answered?
    ensures ListViz(other, DeleteViz(id, owner, db).body) == ListViz(other, db)
  {
    var keep := (v: Visualization) => !(v.id == id && v.owner == owner);
    var mine := (v: Visualization) => v.owner == other;
    Lists.FilterFilter(db, keep, mine, mine);
  }
}
