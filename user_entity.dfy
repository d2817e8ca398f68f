/** The domain entity of the app: one user as the remote service describes it. */
module UserEntity {

  datatype Address = Address(street: string, suite: string, city: string, zipcode: string)

  datatype Company = Company(name: string)

  /** Only `id` takes part in the repository's logic; `name` and `email` in the home screen's search. */
  datatype User = User(
    id: int,
    name: string,
    email: string,
    phone: string,
    address: Address,
    company: Company,
    website: string)
}

/** The errors a promise of the data layer can reject with. */
module Errors {

  datatype Error =
    | NetworkError(detail: string)        // an axios request of the remote data source failed
    | StorageError(detail: string)        // AsyncStorage rejected a write
    | ParseError                          // JSON.parse threw on the stored user list
    | NoConnectionNoCache                 // offline, and no cached list to serve
    | NoConnectionUserNotFound(id: int)   // offline, and no cached user with this id
}
