/**
 * The documents of the two collections: `User` with its nested `Address`, `Geo` and
 * `Company` (UserAPISample2/Models/User.cs) and `Counter` (UserAPISample2/Models/Counter.cs).
 * Every C# property is nullable, so every field is an `Option`.
 */
module Models {
  import opened Wrappers

  datatype Geo = Geo(lat: Option<string>, lng: Option<string>)

  datatype Address = Address(
    street: Option<string>,
    suite: Option<string>,
    city: Option<string>,
    zipcode: Option<string>,
    geo: Option<Geo>)

  datatype Company = Company(name: Option<string>, catchPhrase: Option<string>, bs: Option<string>)

  /** The property values of a user; `id` is `None` until the store assigns one. */
  datatype User = User(
    id: Option<string>,
    name: Option<string>,
    username: Option<string>,
    email: Option<string>,
    address: Option<Address>,
    phone: Option<string>,
    website: Option<string>,
    company: Option<Company>)

  /** A named sequence: `id` is the sequence's name, `seqValue` (BSON field `seq`) its current value. */
  datatype Counter = Counter(id: string, seqValue: int)

  /**
   * A C# `User` is a reference type: the controller hands the very object it received to
   * the service, the store writes a generated id into it on insert, and the controller
   * overwrites its id before an update. `UserObject` is that reference; `value` holds its
   * current property values.
   */
  class UserObject {
    var value: User

    constructor (value: User)
      ensures this.value == value
    {
      this.value := value;
    }
  }
}
