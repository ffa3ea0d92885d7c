/**
 * `POST /api/profile/update`: check that the body names a profile, a user and
 * an update object, look the profile up by `id`, refuse if it belongs to
 * someone else, and otherwise merge the update object into that row.
 *
 * The update object reaches the store as sent: `id`, `user_id` and
 * `is_primary` are ordinary columns here and may be rewritten.
 */
module UpdateProfile {
  import opened Optional
  import opened Rows
  import opened Cards
  import opened Http
  import opened Gates

  /** The JSON body after parsing. An object is always truthy, so `updates` is falsy only when absent. */
  datatype UpdateRequest = UpdateRequest(profileId: Option<string>, userId: Option<string>, updates: Option<Row>)

  /** Failures of the two store calls: the ownership fetch and the write. */
  datatype UpdateEnv = UpdateEnv(fetchFails: bool, writeFails: bool)

  /** Each route module has its own `Outcome` and messages, as each route file has its own. */
  datatype Outcome = Outcome(response: Response, rows: Table)

  const MsgMissingFields := "Missing required fields: profileId, userId, or updates"
  const MsgNotFound := "Profile not found"
  const MsgNotOwner := "Unauthorized: You can only update your own profile"
  const MsgUpdateFailed := "Failed to update profile"

  predicate WellFormed(req: UpdateRequest) {
    Present(req.profileId) && Present(req.userId) && req.updates.Some?
  }

  /**
   * What a 200 response means: row `k` is the one row whose `id` is the
   * requested profile, it belongs to the requesting user, it alone changed,
   * it now holds the merge of its old columns with the update object, and the
   * response returns it.
   */
  predicate UpdateApplied(req: UpdateRequest, rows: Table, k: int, o: Outcome)
    requires WellFormed(req)
  {
    && UniqueMatch(rows, IdFilter(req.profileId.value), k)
    && OwnedBy(rows[k], req.userId.value)
    && |o.rows| == |rows|
    && o.rows[k] == Merge(rows[k], req.updates.value)
    && (forall i :: 0 <= i < |rows| && i != k ==> o.rows[i] == rows[i])
    && o.response == Response(Ok, ProfileUpdated(o.rows[k]))
  }

  /** The route handler. */
  function HandleUpdateProfile(req: UpdateRequest, env: UpdateEnv, rows: Table): (o: Outcome)
    ensures o.response.status in {Ok, BadRequest, Forbidden, NotFound, InternalError}
    ensures o.response.status != Ok ==> o.rows == rows
    ensures o.response.status == BadRequest <==> !WellFormed(req)
    ensures o.response.status == NotFound <==>
              WellFormed(req) && (env.fetchFails || forall k :: !UniqueMatch(rows, IdFilter(req.profileId.value), k))
    ensures o.response.status == Forbidden <==>
              WellFormed(req) && !env.fetchFails
              && exists k :: UniqueMatch(rows, IdFilter(req.profileId.value), k) && !OwnedBy(rows[k], req.userId.value)
    ensures o.response.status == InternalError <==>
              WellFormed(req) && !env.fetchFails && env.writeFails
              && exists k :: UniqueMatch(rows, IdFilter(req.profileId.value), k) && OwnedBy(rows[k], req.userId.value)
    ensures o.response.status == Ok ==> WellFormed(req) && exists k :: UpdateApplied(req, rows, k, o)
  {
    if !Present(req.profileId) || !Present(req.userId) || req.updates.None? then
      Outcome(Reject(BadRequest, MsgMissingFields), rows)
    else
      var profileId, userId, updates := req.profileId.value, req.userId.value, req.updates.value;
      var found := SelectSingle(rows, IdFilter(profileId));
      if env.fetchFails || found.None? then
        Outcome(Reject(NotFound, MsgNotFound), rows)
      else
        var k := found.value;
        if !OwnedBy(rows[k], userId) then
          Outcome(Reject(Forbidden, MsgNotOwner), rows)
        else if env.writeFails then
          Outcome(Reject(InternalError, MsgUpdateFailed), rows)
        else
          var rows' := UpdateWhere(rows, IdFilter(profileId), updates);
          var o := Outcome(Response(Ok, ProfileUpdated(rows'[k])), rows');
          assert UpdateApplied(req, rows, k, o);
          o
  }

  /** The handler's checks in source order, each with the rejection it produces. */
  function UpdateGates(req: UpdateRequest, env: UpdateEnv, rows: Table): seq<Gate> {
    var found := if req.profileId.Some? then SelectSingle(rows, IdFilter(req.profileId.value)) else None;
    [ Gate(WellFormed(req), BadRequest, MsgMissingFields),
      Gate(!env.fetchFails && found.Some?, NotFound, MsgNotFound),
      Gate(req.userId.None? || found.None? || OwnedBy(rows[found.value], req.userId.value), Forbidden, MsgNotOwner) ]
  }

  /**
   * Check ordering: when a check fails, the first failing one decides the
   * response and the rows are untouched; when all pass, the handler writes
   * and answers 200, or 500 if the write fails.
   */
  lemma UpdateFollowsGates(req: UpdateRequest, env: UpdateEnv, rows: Table)
    ensures var gs := UpdateGates(req, env, rows);
            var o := HandleUpdateProfile(req, env, rows);
            match FirstFailure(gs)
            case Some(k) => o == Outcome(Reject(gs[k].status, gs[k].message), rows)
            case None => o.response.status == Ok || o == Outcome(Reject(InternalError, MsgUpdateFailed), rows)
  {
    var gs := UpdateGates(req, env, rows);
    match FirstFailure(gs)
    case Some(k) =>
      assert forall j :: 0 <= j < k ==> gs[j].passes;
    case None =>
      assert gs[0].passes && gs[1].passes && gs[2].passes;
  }

  /**
   * Sending an accepted update a second time leaves the table as the first
   * call left it, whatever the store does on the second call: either the same
   * row is found and re-merged to the same values, or (the first update
   * rewrote the row's `id` or `user_id`) the second call is rejected.
   */
  lemma UpdateIdempotent(req: UpdateRequest, env1: UpdateEnv, env2: UpdateEnv, rows: Table)
    requires HandleUpdateProfile(req, env1, rows).response.status == Ok
    ensures var once := HandleUpdateProfile(req, env1, rows).rows;
            HandleUpdateProfile(req, env2, once).rows == once
  {
    var o1 := HandleUpdateProfile(req, env1, rows);
    var k :| UpdateApplied(req, rows, k, o1);
    var once := o1.rows;
    var o2 := HandleUpdateProfile(req, env2, once);
    if o2.response.status == Ok {
      var k2 :| UpdateApplied(req, once, k2, o2);
      var f := IdFilter(req.profileId.value);
      assert Matches(once[k2], f);
      assert forall i :: 0 <= i < |rows| && i != k ==> !Matches(once[i], f);
      MergeIdempotent(rows[k], req.updates.value);
      assert o2.rows[k] == once[k];
    }
  }

  /**
   * Any well-formed update of an existing card by a user other than its owner
   * is refused with 403 and changes nothing.
   */
  lemma ForeignUpdateForbidden(req: UpdateRequest, env: UpdateEnv, rows: Table, k: int)
    requires WellFormed(req) && !env.fetchFails
    requires UniqueMatch(rows, IdFilter(req.profileId.value), k)
    requires !OwnedBy(rows[k], req.userId.value)
    ensures HandleUpdateProfile(req, env, rows) == Outcome(Reject(Forbidden, MsgNotOwner), rows)
  {
  }

  /**
   * The owner's update of one column on an existing card answers 200, sets
   * that column, keeps every other column of the card (`id`, `user_id` and
   * `is_primary` included), adds no other column, and leaves every other row
   * alone.
   */
  lemma OwnerUpdateMerges(req: UpdateRequest, env: UpdateEnv, rows: Table, k: int, c: Column, v: Value)
    requires Present(req.profileId) && Present(req.userId) && req.updates == Some(map[c := v])
    requires !env.fetchFails && !env.writeFails
    requires UniqueMatch(rows, IdFilter(req.profileId.value), k)
    requires OwnedBy(rows[k], req.userId.value)
    ensures var o := HandleUpdateProfile(req, env, rows);
            && o.response.status == Ok
            && |o.rows| == |rows|
            && o.rows[k][c] == v
            && o.rows[k].Keys == rows[k].Keys + {c}
            && (forall d :: d in rows[k] && d != c ==> o.rows[k][d] == rows[k][d])
            && (forall i :: 0 <= i < |rows| && i != k ==> o.rows[i] == rows[i])
  {
  }

  /** A primary card `p1` of user `u1` with an e-mail address and an empty phone number. */
  function SampleCard(): Row {
    map[IdColumn := Str("p1"), UserIdColumn := Str("u1"), IsPrimaryColumn := Bool(true),
        "email" := Str("a@b.com"), "phone" := Str("")]
  }

  lemma SampleCardFound()
    ensures SelectSingle([SampleCard()], IdFilter("p1")) == Some(0)
  {
    assert UniqueMatch([SampleCard()], IdFilter("p1"), 0);
  }

  /** Example: `u2`'s update of `u1`'s card `p1` is refused with 403 and changes nothing. */
  lemma SampleForeignUpdateForbidden(env: UpdateEnv)
    requires !env.fetchFails
    ensures var o := HandleUpdateProfile(
              UpdateRequest(Some("p1"), Some("u2"), Some(map["email" := Str("x@y.com")])), env, [SampleCard()]);
            o.response == Reject(Forbidden, MsgNotOwner) && o.rows == [SampleCard()]
  {
    SampleCardFound();
  }

  /** Example: the owner's update of `phone` sets it and keeps `email`. */
  lemma SampleOwnerUpdateMerges(env: UpdateEnv)
    requires !env.fetchFails && !env.writeFails
    ensures var o := HandleUpdateProfile(
              UpdateRequest(Some("p1"), Some("u1"), Some(map["phone" := Str("555-1234")])), env, [SampleCard()]);
            && o.response.status == Ok
            && o.rows[0]["email"] == Str("a@b.com")
            && o.rows[0]["phone"] == Str("555-1234")
  {
    SampleCardFound();
  }

  /**
   * Because the update object is not filtered, the owner can hand the card to
   * another user; afterwards the former owner's updates are refused.
   */
  lemma UpdateCanReassignOwner(env: UpdateEnv)
    requires !env.fetchFails && !env.writeFails
    ensures var o := HandleUpdateProfile(
              UpdateRequest(Some("p1"), Some("u1"), Some(map[UserIdColumn := Str("u2")])), env, [SampleCard()]);
            && o.response.status == Ok
            && o.rows[0][UserIdColumn] == Str("u2")
            && HandleUpdateProfile(
                 UpdateRequest(Some("p1"), Some("u1"), Some(map["email" := Str("x@y.com")])), env, o.rows
               ).response.status == Forbidden
  {
    SampleCardFound();
    var handed := Merge(SampleCard(), map[UserIdColumn := Str("u2")]);
    var o := HandleUpdateProfile(
      UpdateRequest(Some("p1"), Some("u1"), Some(map[UserIdColumn := Str("u2")])), env, [SampleCard()]);
    assert o.rows == [handed];
    assert handed[UserIdColumn] == Str("u2") && handed[IdColumn] == Str("p1");
    assert UniqueMatch(o.rows, IdFilter("p1"), 0);
    assert !OwnedBy(o.rows[0], "u1");
  }
}
