/** The maintenance script `swapNames`: it reads every user, then for each
    in turn exchanges `firstName` and `lastName` and saves the document,
    counting the saves. A save validates the document (every path but the
    password, which was not read) and runs the `pre("save")` hook with the
    password unmodified. The first refused save ends the script with exit
    code 1, the users before it already swapped. */
module SwapNames {
  import opened Common
  import opened UserModel
  import opened Database

  /** The user with its first and last name exchanged. */
  function Swapped(u: User): User {
    u.(firstName := u.lastName, lastName := u.firstName)
  }

  /** Every user of `users` swapped, in the same order. */
  function SwapAll(users: seq<User>): (r: seq<User>)
    ensures |r| == |users|
    ensures forall i | 0 <= i < |users| :: r[i] == Swapped(users[i])
  {
    if |users| == 0 then [] else [Swapped(users[0])] + SwapAll(users[1..])
  }

  /** A swapped user keeps every field but the two names, and swapping
      twice gives the user back. */
  lemma SwapTouchesOnlyNames(u: User)
    ensures var s := Swapped(u);
            s.id == u.id && s.email == u.email && s.phone == u.phone && s.dob == u.dob &&
            s.gender == u.gender && s.password == u.password && s.role == u.role &&
            s.doctorDepartment == u.doctorDepartment
    ensures Swapped(Swapped(u)) == u
  {
  }

  /** The save of a swapped user is refused. */
  function RefusesSwap(isEmail: string -> bool): User -> bool {
    (u: User) => !ValidProfile(Swapped(u), isEmail)
  }

  /** For a user the schema accepts, the swapped user is accepted exactly
      when the last name, which becomes the first name, has at least three
      characters. */
  lemma SwapAcceptedExactly(u: User, isEmail: string -> bool)
    requires ValidProfile(u, isEmail)
    ensures !RefusesSwap(isEmail)(u) <==> |u.lastName| >= 3
  {
  }

  /** A user with a two-character last name, which the schema allows, stops
      the script. */
  lemma TwoLetterLastNameStops(isEmail: string -> bool)
    requires isEmail("an@example.com")
    ensures var u := User(1, "Anh", "Le", "an@example.com", "0912345678", "2000-01-01", "Nam",
                          "secret-hash", "Patient", "");
            ValidProfile(u, isEmail) && RefusesSwap(isEmail)(u)
  {
  }

  /** When a first run saves every user of a table the schema accepts, a
      second run saves every user too and restores every name. */
  lemma SecondRunRestores(users: seq<User>, isEmail: string -> bool)
    requires forall i | 0 <= i < |users| :: ValidProfile(users[i], isEmail) && !RefusesSwap(isEmail)(users[i])
    ensures forall i | 0 <= i < |SwapAll(users)| :: !RefusesSwap(isEmail)(SwapAll(users)[i])
    ensures SwapAll(SwapAll(users)) == users
  {
    forall i | 0 <= i < |users| ensures SwapAll(SwapAll(users))[i] == users[i] {
      SwapTouchesOnlyNames(users[i]);
    }
  }

  /** The state after `i` saves: the first `i` users swapped and accepted,
      the rest as they were read. */
  ghost predicate SwappedUpTo(current: seq<User>, users: seq<User>, i: nat, isEmail: string -> bool) {
    i <= |users| && |current| == |users| &&
    (forall j | 0 <= j < i :: current[j] == Swapped(users[j]) && !RefusesSwap(isEmail)(users[j])) &&
    (forall j | i <= j < |users| :: current[j] == users[j])
  }

  lemma SwappedUpToNext(current: seq<User>, users: seq<User>, i: nat, isEmail: string -> bool)
    requires SwappedUpTo(current, users, i, isEmail) && i < |users| && !RefusesSwap(isEmail)(users[i])
    ensures SwappedUpTo(current[i := Swapped(users[i])], users, i + 1, isEmail)
  {
  }

  /** The state after `i` saves, as the script leaves it when it stops at `i`. */
  lemma SwappedUpToEnd(current: seq<User>, users: seq<User>, i: nat, isEmail: string -> bool)
    requires SwappedUpTo(current, users, i, isEmail)
    requires i == |users| || RefusesSwap(isEmail)(users[i])
    ensures current == SwapAll(users[..i]) + users[i..]
    ensures FindIndex(users, RefusesSwap(isEmail)) == if i < |users| then Some(i) else None
  {
    SwappedUpToIsPrefix(current, users, i, isEmail);
    FirstMatchAt(users, RefusesSwap(isEmail), i);
  }

  lemma SwappedUpToIsPrefix(current: seq<User>, users: seq<User>, i: nat, isEmail: string -> bool)
    requires SwappedUpTo(current, users, i, isEmail)
    ensures current == SwapAll(users[..i]) + users[i..]
  {
    var swapped := SwapAll(users[..i]);
    var r := swapped + users[i..];
    forall j | 0 <= j < |r| ensures r[j] == current[j] {
      if j < i {
        assert r[j] == swapped[j] == Swapped(users[..i][j]);
        assert users[..i][j] == users[j];
      } else {
        assert r[j] == users[i..][j - i];
      }
    }
  }

  /** The first position where `p` holds, or the end when it holds nowhere. */
  lemma FirstMatchAt<T>(s: seq<T>, p: T -> bool, i: nat)
    requires i <= |s| && (i == |s| || p(s[i])) && forall j | 0 <= j < i :: !p(s[j])
    ensures FindIndex(s, p) == if i < |s| then Some(i) else None
  {
  }

  /** `swapNames`. `connected` is the outcome of `mongoose.connect`. */
  method SwapNames(db: Db, connected: bool, isEmail: string -> bool, hash: string -> string)
    returns (exitCode: nat, updateCount: nat)
    requires db.Valid()
    modifies db
    ensures db.Valid()
    ensures !connected ==> exitCode == 1 && updateCount == 0 && unchanged(db)
    ensures connected ==>
              var stop := FindIndex(old(db.users), RefusesSwap(isEmail));
              var n := if stop.Some? then stop.value else |old(db.users)|;
              exitCode == (if stop.Some? then 1 else 0) && updateCount == n &&
              db.users == SwapAll(old(db.users)[..n]) + old(db.users)[n..]
    ensures exitCode == 0 ==> updateCount == |old(db.users)| && db.users == SwapAll(old(db.users))
    ensures db.appointments == old(db.appointments) && db.diagnoses == old(db.diagnoses) &&
            db.messages == old(db.messages) && db.nextId == old(db.nextId)
  {
    if !connected {
      return 1, 0;
    }
    var users := db.users;
    updateCount := 0;
    for i := 0 to |users|
      invariant db.Valid()
      invariant updateCount == i
      invariant SwappedUpTo(db.users, users, i, isEmail)
      invariant db.appointments == old(db.appointments) && db.diagnoses == old(db.diagnoses) &&
                db.messages == old(db.messages) && db.nextId == old(db.nextId)
    {
      var user := Swapped(users[i]);
      if !ValidProfile(user, isEmail) {
        SwappedUpToEnd(db.users, users, i, isEmail);
        return 1, updateCount;
      }
      var saved := PreSave(user, false, hash);
      assert saved == user;
      SwappedUpToNext(db.users, users, i, isEmail);
      db.ReplaceUser(i, saved);
      updateCount := updateCount + 1;
    }
    SwappedUpToEnd(db.users, users, |users|, isEmail);
    assert users[..|users|] == users;
    exitCode := 0;
  }
}
