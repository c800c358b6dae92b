/** The `User` collection's schema: the field constraints Mongoose checks
    before a user document is written, and the `pre("save")` hook that
    hashes the password. Request fields the client leaves out are "" here,
    which the `required` validator refuses just as it refuses `undefined`. */
module UserModel {
  import opened Common

  /** A user document. `dob` is kept as the text the client sent; the
      conversion to a `Date` is not modelled. */
  datatype User = User(id: Id, firstName: string, lastName: string, email: string,
                       phone: string, dob: string, gender: string, password: string,
                       role: string, doctorDepartment: string)

  const Genders: set<string> := {"Nam", "Nữ"}
  /** The roles the schema's `enum` admits: there is no "Doctor". */
  const Roles: set<string> := {"Patient", "Admin"}

  /** Every validator of the schema except the password's. A document read
      back from the collection does not carry its password (`select: false`),
      so a later `save()` checks exactly these. `isEmail` is the
      `validator.isEmail` library call. */
  predicate ValidProfile(u: User, isEmail: string -> bool) {
    |u.firstName| >= 3 && |u.lastName| >= 2 &&
    u.email != "" && isEmail(u.email) &&
    9 <= |u.phone| <= 11 &&
    u.dob != "" &&
    u.gender in Genders &&
    u.role in Roles
  }

  /** Every validator of the schema: what `User.create` checks on a new document. */
  predicate ValidUser(u: User, isEmail: string -> bool) {
    ValidProfile(u, isEmail) && |u.password| >= 8
  }

  /** A document the schema accepts never has the role "Doctor". */
  lemma ValidUserIsNoDoctor(u: User, isEmail: string -> bool)
    requires ValidProfile(u, isEmail)
    ensures u.role != "Doctor"
    ensures u.role == "Patient" || u.role == "Admin"
  {
  }

  /** The `pre("save")` hook: the password is replaced by its hash when it
      was set or changed since the document was read, and left alone
      otherwise; `hash` is `bcrypt.hash`. */
  function PreSave(u: User, passwordModified: bool, hash: string -> string): (r: User)
    ensures r.password == (if passwordModified then hash(u.password) else u.password)
    ensures r.(password := u.password) == u
  {
    if passwordModified then u.(password := hash(u.password)) else u
  }

  /** A user created (password new, so hashed once) and saved again any
      number of times without touching the password keeps the one hash:
      later saves never hash the hash. */
  lemma {:induction false} PasswordHashedOnce(u: User, laterSaves: nat, hash: string -> string)
    ensures SaveRepeatedly(PreSave(u, true, hash), laterSaves, hash).password == hash(u.password)
  {
    if laterSaves > 0 {
      PasswordHashedOnce(u, laterSaves - 1, hash);
    }
  }

  /** `n` saves that leave the password untouched. */
  function SaveRepeatedly(u: User, n: nat, hash: string -> string): User {
    if n == 0 then u else PreSave(SaveRepeatedly(u, n - 1, hash), false, hash)
  }

  /** `User.findOne({ email })`: the position of the first user with that email. */
  function FindByEmail(users: seq<User>, email: string): (r: Option<nat>)
    ensures r.Some? ==> r.value < |users| && users[r.value].email == email
    ensures r.None? <==> forall i | 0 <= i < |users| :: users[i].email != email
  {
    FindIndex(users, (u: User) => u.email == email)
  }

  /** `comparePassword`: `bcrypt.compare` of the entered text with the stored hash. */
  function ComparePassword(u: User, entered: string, compare: (string, string) -> bool): bool {
    compare(entered, u.password)
  }
}
