/**
 * The `business_cards` columns the two profile routes read or write, and the
 * `.eq` filters they build from them.
 */
module Cards {
  import opened Rows

  const IdColumn: Column := "id"
  const UserIdColumn: Column := "user_id"
  const IsPrimaryColumn: Column := "is_primary"
  const AvatarUrlColumn: Column := "avatar_url"

  /** The row's `user_id` is exactly this user (`profile.user_id === userId`). */
  predicate OwnedBy(row: Row, userId: string) {
    UserIdColumn in row && row[UserIdColumn] == Str(userId)
  }

  /** `.eq('id', profileId)`. */
  function IdFilter(profileId: string): (f: Filter)
    ensures forall row :: Matches(row, f) <==> IdColumn in row && row[IdColumn] == Str(profileId)
  {
    map[IdColumn := Str(profileId)]
  }

  /** `.eq('user_id', userId)`. */
  function OwnerFilter(userId: string): (f: Filter)
    ensures forall row :: Matches(row, f) <==> OwnedBy(row, userId)
  {
    map[UserIdColumn := Str(userId)]
  }

  /** `.eq('user_id', userId).eq('is_primary', true)`. */
  function PrimaryFilter(userId: string): (f: Filter)
    ensures forall row :: Matches(row, f) <==>
      OwnedBy(row, userId) && IsPrimaryColumn in row && row[IsPrimaryColumn] == Bool(true)
  {
    map[UserIdColumn := Str(userId), IsPrimaryColumn := Bool(true)]
  }
}
