/** The MongoDB database the handlers share: one sequence of documents per
    collection, in insertion order (the natural order `find()` returns),
    and the source of fresh ids. The operations below are the Mongoose calls
    the handlers make (`create`, `deleteOne`, `findByIdAndUpdate`, `save`);
    each keeps the ids of every collection fresh and distinct, and the user
    emails distinct, as the `_id` and the `unique` email indexes do. */
module Database {
  import opened Common
  import opened UserModel
  import opened AppointmentModel
  import opened DiagnosisModel
  import opened MessageModel

  function UserId(u: User): Id { u.id }
  function UserEmail(u: User): string { u.email }
  function AppointmentId(a: Appointment): Id { a.id }
  function DiagnosisId(d: Diagnosis): Id { d.id }
  function MessageId(m: Message): Id { m.id }

  ghost predicate KeysBelow<T>(s: seq<T>, key: T -> Id, bound: nat) {
    forall i | 0 <= i < |s| :: key(s[i]) < bound
  }

  ghost predicate DistinctKeys<T, K>(s: seq<T>, key: T -> K) {
    forall i, j | 0 <= i < j < |s| :: key(s[i]) != key(s[j])
  }

  /** Appending an element whose key no element has keeps the keys distinct. */
  lemma AppendNewKey<T, K>(s: seq<T>, x: T, key: T -> K)
    requires DistinctKeys(s, key)
    requires forall i | 0 <= i < |s| :: key(s[i]) != key(x)
    ensures DistinctKeys(s + [x], key)
  {
    var r := s + [x];
    forall i, j | 0 <= i < j < |r| ensures key(r[i]) != key(r[j]) {
      if j == |s| {
        assert r[i] == s[i];
      } else {
        assert r[i] == s[i] && r[j] == s[j];
      }
    }
  }

  /** Removing one element keeps the keys distinct and below the bound. */
  lemma RemoveKeepsKeys<T, K>(s: seq<T>, k: nat, key: T -> K)
    requires k < |s| && DistinctKeys(s, key)
    ensures DistinctKeys(RemoveAt(s, k), key)
  {
    var r := RemoveAt(s, k);
    forall i, j | 0 <= i < j < |r| ensures key(r[i]) != key(r[j]) {
      var i' := if i < k then i else i + 1;
      var j' := if j < k then j else j + 1;
      assert r[i] == s[i'] && r[j] == s[j'];
    }
  }

  lemma RemoveKeepsBound<T>(s: seq<T>, k: nat, key: T -> Id, bound: nat)
    requires k < |s| && KeysBelow(s, key, bound)
    ensures KeysBelow(RemoveAt(s, k), key, bound)
  {
    var r := RemoveAt(s, k);
    forall i | 0 <= i < |r| ensures key(r[i]) < bound {
      var i' := if i < k then i else i + 1;
      assert r[i] == s[i'];
    }
  }

  /** With distinct keys, removing the element at `k` removes exactly the
      elements with its key: every other element stays. */
  lemma RemoveOnlyThatKey<T, K>(s: seq<T>, k: nat, key: T -> K)
    requires k < |s| && DistinctKeys(s, key)
    ensures forall x :: x in RemoveAt(s, k) <==> x in s && key(x) != key(s[k])
  {
    var r := RemoveAt(s, k);
    forall x ensures x in r <==> x in s && key(x) != key(s[k]) {
      if x in r {
        var i :| 0 <= i < |r| && r[i] == x;
        var i' := if i < k then i else i + 1;
        assert r[i] == s[i'] && i' != k;
        if i' < k {
          assert key(s[i']) != key(s[k]);
        } else {
          assert key(s[k]) != key(s[i']);
        }
      }
      if x in s && key(x) != key(s[k]) {
        var i :| 0 <= i < |s| && s[i] == x;
        assert i != k;
        if i < k {
          assert r[i] == x;
        } else {
          assert r[i - 1] == x;
        }
      }
    }
  }

  /** Replacing an element by one with the same key keeps the keys as they were. */
  lemma ReplaceKeepsKeys<T, K>(s: seq<T>, k: nat, x: T, key: T -> K)
    requires k < |s| && DistinctKeys(s, key) && key(x) == key(s[k])
    ensures DistinctKeys(s[k := x], key)
  {
    var r := s[k := x];
    forall i, j | 0 <= i < j < |r| ensures key(r[i]) != key(r[j]) {
      assert key(r[i]) == key(s[i]) && key(r[j]) == key(s[j]);
    }
  }

  lemma ReplaceKeepsBound<T>(s: seq<T>, k: nat, x: T, key: T -> Id, bound: nat)
    requires k < |s| && KeysBelow(s, key, bound) && key(x) == key(s[k])
    ensures KeysBelow(s[k := x], key, bound)
  {
    var r := s[k := x];
    forall i | 0 <= i < |r| ensures key(r[i]) < bound {
      assert key(r[i]) == key(s[i]);
    }
  }

  class Db {
    var users: seq<User>
    var appointments: seq<Appointment>
    var diagnoses: seq<Diagnosis>
    var messages: seq<Message>
    /** The next id to hand out; every id in use is smaller. */
    var nextId: nat

    ghost predicate Valid()
      reads this
    {
      KeysBelow(users, UserId, nextId) && DistinctKeys(users, UserId) &&
      DistinctKeys(users, UserEmail) &&
      KeysBelow(appointments, AppointmentId, nextId) && DistinctKeys(appointments, AppointmentId) &&
      KeysBelow(diagnoses, DiagnosisId, nextId) && DistinctKeys(diagnoses, DiagnosisId) &&
      KeysBelow(messages, MessageId, nextId) && DistinctKeys(messages, MessageId)
    }

    constructor ()
      ensures Valid()
      ensures users == [] && appointments == [] && diagnoses == [] && messages == []
    {
      users := [];
      appointments := [];
      diagnoses := [];
      messages := [];
      nextId := 0;
    }

    // -------------------------------------------------------------------------
    // Lookups

    /** `User.findOne({ email })`. */
    function FindUserByEmail(email: string): (r: Option<nat>)
      reads this
      ensures r.Some? ==> r.value < |users| && users[r.value].email == email
      ensures r.None? <==> forall i | 0 <= i < |users| :: users[i].email != email
    {
      FindByEmail(users, email)
    }

    /** `User.findById(id)`. */
    function FindUser(id: Id): (r: Option<nat>)
      reads this
      ensures r.Some? ==> r.value < |users| && users[r.value].id == id
      ensures r.None? <==> forall i | 0 <= i < |users| :: users[i].id != id
    {
      FindIndex(users, (u: User) => u.id == id)
    }

    /** `Appointment.findById(id)`. */
    function FindAppointment(id: Id): (r: Option<nat>)
      reads this
      ensures r.Some? ==> r.value < |appointments| && appointments[r.value].id == id
      ensures r.None? <==> forall i | 0 <= i < |appointments| :: appointments[i].id != id
    {
      FindIndex(appointments, (a: Appointment) => a.id == id)
    }

    /** `Diagnosis.findById(id)`. */
    function FindDiagnosis(id: Id): (r: Option<nat>)
      reads this
      ensures r.Some? ==> r.value < |diagnoses| && diagnoses[r.value].id == id
      ensures r.None? <==> forall i | 0 <= i < |diagnoses| :: diagnoses[i].id != id
    {
      FindIndex(diagnoses, (d: Diagnosis) => d.id == id)
    }

    /** `Message.findById(id)`. */
    function FindMessage(id: Id): (r: Option<nat>)
      reads this
      ensures r.Some? ==> r.value < |messages| && messages[r.value].id == id
      ensures r.None? <==> forall i | 0 <= i < |messages| :: messages[i].id != id
    {
      FindIndex(messages, (m: Message) => m.id == id)
    }

    // -------------------------------------------------------------------------
    // Writes

    /** Inserts a user under a fresh id. The unique index on `email` refuses
        a second document with the same email, so the caller must have none. */
    method InsertUser(u: User) returns (stored: User)
      requires Valid()
      requires forall i | 0 <= i < |users| :: users[i].email != u.email
      modifies this
      ensures Valid()
      ensures stored == u.(id := old(nextId)) && users == old(users) + [stored]
      ensures nextId == old(nextId) + 1
      ensures appointments == old(appointments) && diagnoses == old(diagnoses) && messages == old(messages)
    {
      stored := u.(id := nextId);
      AppendNewKey(users, stored, UserId);
      AppendNewKey(users, stored, UserEmail);
      users := users + [stored];
      nextId := nextId + 1;
    }

    /** Replaces the user at position `k` by a document with the same id and email. */
    method ReplaceUser(k: nat, u: User)
      requires Valid() && k < |users| && u.id == users[k].id && u.email == users[k].email
      modifies this
      ensures Valid()
      ensures users == old(users)[k := u]
      ensures nextId == old(nextId)
      ensures appointments == old(appointments) && diagnoses == old(diagnoses) && messages == old(messages)
    {
      ReplaceKeepsKeys(users, k, u, UserId);
      ReplaceKeepsKeys(users, k, u, UserEmail);
      ReplaceKeepsBound(users, k, u, UserId, nextId);
      users := users[k := u];
    }

    method DeleteUser(k: nat)
      requires Valid() && k < |users|
      modifies this
      ensures Valid()
      ensures users == RemoveAt(old(users), k)
      ensures nextId == old(nextId)
      ensures appointments == old(appointments) && diagnoses == old(diagnoses) && messages == old(messages)
    {
      RemoveKeepsKeys(users, k, UserId);
      RemoveKeepsKeys(users, k, UserEmail);
      RemoveKeepsBound(users, k, UserId, nextId);
      users := RemoveAt(users, k);
    }

    method InsertAppointment(a: Appointment) returns (stored: Appointment)
      requires Valid()
      modifies this
      ensures Valid()
      ensures stored == a.(id := old(nextId)) && appointments == old(appointments) + [stored]
      ensures nextId == old(nextId) + 1
      ensures users == old(users) && diagnoses == old(diagnoses) && messages == old(messages)
    {
      stored := a.(id := nextId);
      AppendNewKey(appointments, stored, AppointmentId);
      appointments := appointments + [stored];
      nextId := nextId + 1;
    }

    /** Replaces the appointment at position `k` by a document with the same id. */
    method ReplaceAppointment(k: nat, a: Appointment)
      requires Valid() && k < |appointments| && a.id == appointments[k].id
      modifies this
      ensures Valid()
      ensures appointments == old(appointments)[k := a]
      ensures nextId == old(nextId)
      ensures users == old(users) && diagnoses == old(diagnoses) && messages == old(messages)
    {
      ReplaceKeepsKeys(appointments, k, a, AppointmentId);
      ReplaceKeepsBound(appointments, k, a, AppointmentId, nextId);
      appointments := appointments[k := a];
    }

    method DeleteAppointment(k: nat)
      requires Valid() && k < |appointments|
      modifies this
      ensures Valid()
      ensures appointments == RemoveAt(old(appointments), k)
      ensures nextId == old(nextId)
      ensures users == old(users) && diagnoses == old(diagnoses) && messages == old(messages)
    {
      RemoveKeepsKeys(appointments, k, AppointmentId);
      RemoveKeepsBound(appointments, k, AppointmentId, nextId);
      appointments := RemoveAt(appointments, k);
    }

    method InsertDiagnosis(d: Diagnosis) returns (stored: Diagnosis)
      requires Valid()
      modifies this
      ensures Valid()
      ensures stored == d.(id := old(nextId)) && diagnoses == old(diagnoses) + [stored]
      ensures nextId == old(nextId) + 1
      ensures users == old(users) && appointments == old(appointments) && messages == old(messages)
    {
      stored := d.(id := nextId);
      AppendNewKey(diagnoses, stored, DiagnosisId);
      diagnoses := diagnoses + [stored];
      nextId := nextId + 1;
    }

    method DeleteDiagnosis(k: nat)
      requires Valid() && k < |diagnoses|
      modifies this
      ensures Valid()
      ensures diagnoses == RemoveAt(old(diagnoses), k)
      ensures nextId == old(nextId)
      ensures users == old(users) && appointments == old(appointments) && messages == old(messages)
    {
      RemoveKeepsKeys(diagnoses, k, DiagnosisId);
      RemoveKeepsBound(diagnoses, k, DiagnosisId, nextId);
      diagnoses := RemoveAt(diagnoses, k);
    }

    method InsertMessage(m: Message) returns (stored: Message)
      requires Valid()
      modifies this
      ensures Valid()
      ensures stored == m.(id := old(nextId)) && messages == old(messages) + [stored]
      ensures nextId == old(nextId) + 1
      ensures users == old(users) && appointments == old(appointments) && diagnoses == old(diagnoses)
    {
      stored := m.(id := nextId);
      AppendNewKey(messages, stored, MessageId);
      messages := messages + [stored];
      nextId := nextId + 1;
    }

    method DeleteMessage(k: nat)
      requires Valid() && k < |messages|
      modifies this
      ensures Valid()
      ensures messages == RemoveAt(old(messages), k)
      ensures nextId == old(nextId)
      ensures users == old(users) && appointments == old(appointments) && diagnoses == old(diagnoses)
    {
      RemoveKeepsKeys(messages, k, MessageId);
      RemoveKeepsBound(messages, k, MessageId, nextId);
      messages := RemoveAt(messages, k);
    }
  }
}
