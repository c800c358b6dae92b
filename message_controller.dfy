/** The message handlers: `sendMessage`, `getAllMessages` and `deleteMessage`. */
module MessageController {
  import opened Common
  import opened MessageModel
  import opened Database

  /** The body fields `sendMessage` reads ("" when absent). */
  datatype MessageForm = MessageForm(firstName: string, lastName: string, email: string,
                                     phone: string, message: string)

  function FormFields(f: MessageForm): seq<string> {
    [f.firstName, f.lastName, f.email, f.phone, f.message]
  }

  /** The document `Message.create` builds; the store assigns its id. */
  function MessageOf(f: MessageForm): Message {
    Message(0, f.firstName, f.lastName, f.email, f.phone, f.message)
  }

  /** A form that passes the handler's check may still fail the schema, on
      a phone that is not exactly nine characters long. */
  lemma TruthyFormMayBeRefused(f: MessageForm, isEmail: string -> bool)
    requires AllTruthy(FormFields(f)) && |f.phone| != 9
    ensures !ValidMessage(MessageOf(f), isEmail)
  {
  }

  /** `sendMessage`: 400 when a field is missing; otherwise `Message.create`,
      which stores exactly one message carrying the form's fields. */
  method SendMessage(db: Db, f: MessageForm, isEmail: string -> bool) returns (reply: Reply, sent: Option<Message>)
    requires db.Valid()
    modifies db
    ensures db.Valid()
    ensures reply == Status(200) <==> sent.Some?
    ensures !AllTruthy(FormFields(f)) ==> reply == Status(400) && unchanged(db)
    ensures AllTruthy(FormFields(f)) && !ValidMessage(MessageOf(f), isEmail) ==>
              reply == Uncaught && unchanged(db)
    ensures AllTruthy(FormFields(f)) && ValidMessage(MessageOf(f), isEmail) ==>
              reply == Status(200) && sent == Some(MessageOf(f).(id := old(db.nextId))) &&
              db.messages == old(db.messages) + [sent.value] && db.nextId == old(db.nextId) + 1 &&
              db.users == old(db.users) && db.appointments == old(db.appointments) &&
              db.diagnoses == old(db.diagnoses)
  {
    if !AllTruthy(FormFields(f)) {
      return Status(400), None;
    }
    var m := MessageOf(f);
    if !ValidMessage(m, isEmail) {
      return Uncaught, None;
    }
    var stored := db.InsertMessage(m);
    return Status(200), Some(stored);
  }

  /** `getAllMessages`: every message. The sort key `createdAt` is absent
      from every message document, so the order is the collection's. */
  method GetAllMessages(db: Db) returns (reply: Reply, messages: seq<Message>)
    ensures reply == Status(200)
    ensures messages == db.messages
  {
    return Status(200), db.messages;
  }

  /** `deleteMessage`: 404 for an unknown id; otherwise exactly that message goes. */
  method DeleteMessage(db: Db, id: Id) returns (reply: Reply)
    requires db.Valid()
    modifies db
    ensures db.Valid()
    ensures old(db.FindMessage(id)).None? ==> reply == Status(404) && unchanged(db)
    ensures old(db.FindMessage(id)).Some? ==>
              reply == Status(200) &&
              db.messages == RemoveAt(old(db.messages), old(db.FindMessage(id)).value) &&
              forall m :: m in db.messages <==> m in old(db.messages) && m.id != id
    ensures db.users == old(db.users) && db.appointments == old(db.appointments) &&
            db.diagnoses == old(db.diagnoses) && db.nextId == old(db.nextId)
  {
    var found := db.FindMessage(id);
    if found.None? {
      return Status(404);
    }
    var k := found.value;
    RemoveOnlyThatKey(db.messages, k, MessageId);
    db.DeleteMessage(k);
    return Status(200);
  }
}
