/** Entities shared by several parts of the client (`src/types/entities/user.ts`). */
module Entities {
  import opened Common

  /** The fields of `User` that the client reads; the remaining profile fields are carried opaquely by the JSON layer. */
  datatype User = User(
    id: int,
    email: Option<string>,
    username: string,
    bio: Option<string>,
    walletAddress: Option<string>)
}
