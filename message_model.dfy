/** The `Message` collection's schema: five required fields, with length
    bounds on the names, the phone and the message text. */
module MessageModel {
  import opened Common

  datatype Message = Message(id: Id, firstName: string, lastName: string, email: string,
                             phone: string, message: string)

  /** The schema's validators; `isEmail` is `validator.isEmail`. Both bounds
      of the phone are 9, so a phone number has exactly nine characters. */
  predicate ValidMessage(m: Message, isEmail: string -> bool) {
    |m.firstName| >= 3 && |m.lastName| >= 2 &&
    m.email != "" && isEmail(m.email) &&
    9 <= |m.phone| <= 9 &&
    |m.message| >= 3
  }

  /** A phone of ten or eleven characters, which the user and appointment
      schemas accept, is refused here. */
  lemma TenDigitPhoneRefused(m: Message, isEmail: string -> bool)
    requires |m.phone| == 10
    ensures !ValidMessage(m, isEmail)
  {
  }
}
