/**
 * The records the backend stores: user accounts, reviews and skills, with
 * the fields the modelled operations read or write. Timestamps are integers
 * (larger is later); ids are strings as in the database.
 */
module Models {

  /** A user's standing tier, as the rank badge names them. */
  datatype UserRank = Novice | Beginner | Intermediate | Advanced | Expert | Master

  /** A stored user account. */
  datatype User = User(
    id: string,
    auth0Id: string,
    username: string,
    email: string,
    fullName: string,
    location: string,
    bio: string,
    avatar: string,
    points: int,
    rank: UserRank,
    rating: real,
    reviewCount: int)

  /** A stored review of one user (the reviewee) by another (the reviewer). */
  datatype Review = Review(
    id: string,
    reviewerId: string,
    revieweeId: string,
    bookingId: string,
    rating: int,
    comment: string,
    isPublic: bool,
    createdAt: int)

  /** A skill on offer, owned by the user `userId`. */
  datatype Skill = Skill(
    id: string,
    title: string,
    description: string,
    category: string,
    userId: string,
    price: real,
    duration: int,
    location: string,
    isActive: bool)

  /** The profile fields a user may change; an empty string means "leave unchanged". */
  datatype UpdateUserRequest = UpdateUserRequest(
    username: string,
    fullName: string,
    location: string,
    bio: string,
    avatar: string)

  /** The text columns of the users table that a profile update can write. */
  datatype ProfileColumn = UsernameColumn | FullNameColumn | LocationColumn | BioColumn | AvatarColumn

  /** The value a column holds in `u`. */
  function GetColumn(u: User, c: ProfileColumn): string {
    match c
    case UsernameColumn => u.username
    case FullNameColumn => u.fullName
    case LocationColumn => u.location
    case BioColumn => u.bio
    case AvatarColumn => u.avatar
  }

  /** `u` with every column of the update set written; all other fields are kept. */
  function ApplyColumns(u: User, updates: map<ProfileColumn, string>): (r: User)
    ensures forall c :: GetColumn(r, c) == if c in updates then updates[c] else GetColumn(u, c)
    ensures r.id == u.id && r.auth0Id == u.auth0Id && r.email == u.email
    ensures r.points == u.points && r.rank == u.rank && r.rating == u.rating && r.reviewCount == u.reviewCount
  {
    var u1 := if UsernameColumn in updates then u.(username := updates[UsernameColumn]) else u;
    var u2 := if FullNameColumn in updates then u1.(fullName := updates[FullNameColumn]) else u1;
    var u3 := if LocationColumn in updates then u2.(location := updates[LocationColumn]) else u2;
    var u4 := if BioColumn in updates then u3.(bio := updates[BioColumn]) else u3;
    if AvatarColumn in updates then u4.(avatar := updates[AvatarColumn]) else u4
  }
}
