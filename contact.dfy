/**
 * The `/api/contact` handler (server.js lines 105-135): check the three
 * fields, send the notification to the site owner, then the confirmation
 * to the sender, and answer with the outcome.
 */
module Contact {
  import opened Wrappers
  import opened Html

  /** A field of the parsed JSON body. */
  datatype Field =
    | Absent
    | Text(s: string)
      /** Any other JSON value: whether it is truthy, and how a template literal prints it. */
    | Other(truthy: bool, shown: string)

  predicate Truthy(f: Field) {
    match f
    case Absent => false
    case Text(s) => s != []
    case Other(truthy, _) => truthy
  }

  /** `${f}` in a template literal. */
  function Shown(f: Field): string {
    match f
    case Absent => "undefined"
    case Text(s) => s
    case Other(_, shown) => shown
  }

  datatype Request = Request(name: Field, email: Field, message: Field)

  /** The fields of a `transporter.sendMail` call that the handler fills in. */
  datatype Mail = Mail(from: string, to: string, replyTo: Option<string>, subject: string, text: string, html: string)

  datatype Body = Success | Failure(error: string)

  /** The status, the JSON body of the reply, and the mails handed to the transport, in order. */
  datatype Reply = Reply(status: int, body: Body, attempts: seq<Mail>)

  const MissingFields: string := "Alle Felder sind erforderlich."
  const SendFailed: string := "E-Mail konnte nicht gesendet werden."

  /** The sender name of the notification, the opening of its subject and the labels of its text. */
  const NoticeFrom: string := "\"Portfolio Kontaktformular\" <"
  const NoticeSubject: string := "Neue Kontaktanfrage von "
  const NoticeName: string := "Name: "
  const NoticeEmail: string := "\nE-Mail: "
  const NoticeMessage: string := "\n\nNachricht:\n"

  /** The sender name of the confirmation, its subject and the text around the name. */
  const ThanksFrom: string := "\"Alexander Atanasov\" <"
  const ThanksSubject: string := "Vielen Dank f\U{00FC}r deine Nachricht"
  const ThanksGreeting: string := "Hallo "
  const ThanksText: string :=
    ",\n\nvielen Dank f\U{00FC}r deine Nachricht! Ich habe deine Anfrage erhalten und melde mich so schnell wie m\U{00F6}glich bei dir.\n\nBis bald,\nAlexander Atanasov"

  /**
   * The notification to the owner; `message` must be a string, since
   * `notificationHtml` calls its `replace`. The handler passes `email` as
   * `Shown` prints the field: the source hands the raw value to `replyTo`,
   * which is the same string whenever the field is a string.
   */
  function OwnerMail(owner: string, name: string, email: string, message: string): Mail {
    Mail(NoticeFrom + owner + ">", owner, Some(email),
         NoticeSubject + name,
         NoticeName + name + NoticeEmail + email + NoticeMessage + message,
         NotificationHtml(name, email, message))
  }

  /** The confirmation to the sender; `email` is the address `to` gets, as for OwnerMail's `replyTo`. */
  function ThanksMail(owner: string, name: string, email: string): Mail {
    Mail(ThanksFrom + owner + ">", email, None, ThanksSubject, ThanksGreeting + name + ThanksText, ConfirmationHtml(name))
  }

  /**
   * The `try` block: send `first`, then `second`; the first rejection ends
   * the block with 500, and success answers `{ success: true }`.
   */
  function Send(first: Mail, second: Mail, deliver: Mail -> bool): (r: Reply)
    ensures r.status == 200 <==> deliver(first) && deliver(second)
    ensures r.status == 200 <==> r.body == Success
    ensures r.status != 200 ==> r.status == 500 && r.body == Failure(SendFailed)
    ensures r.attempts == if deliver(first) then [first, second] else [first]
  {
    if !deliver(first) then Reply(500, Failure(SendFailed), [first])
    else if !deliver(second) then Reply(500, Failure(SendFailed), [first, second])
    else Reply(200, Success, [first, second])
  }

  /**
   * The handler. `owner` is `SMTP_USER`; `deliver(m)` tells whether
   * `sendMail(m)` resolves (true) or rejects (false).
   */
  function Handle(req: Request, owner: string, deliver: Mail -> bool): (r: Reply)
    ensures r.status == 400 <==> !Truthy(req.name) || !Truthy(req.email) || !Truthy(req.message)
    ensures r.status == 400 ==> r.body == Failure(MissingFields) && r.attempts == []
    ensures r.status == 200 || r.status == 400 || r.status == 500
    ensures r.status == 200 <==> r.body == Success
    ensures r.status == 500 ==> r.body == Failure(SendFailed)
    ensures r.status != 400 && !req.message.Text? ==> r.status == 500 && r.attempts == []
    ensures r.status != 400 && req.message.Text? ==>
      var first := OwnerMail(owner, Shown(req.name), Shown(req.email), req.message.s);
      var second := ThanksMail(owner, Shown(req.name), Shown(req.email));
      r.attempts == (if deliver(first) then [first, second] else [first])
      && (r.status == 200 <==> deliver(first) && deliver(second))
  {
    if !Truthy(req.name) || !Truthy(req.email) || !Truthy(req.message) then
      Reply(400, Failure(MissingFields), [])
    else if !req.message.Text? then
      // `message.replace` is not a function: the TypeError is caught like a failed send.
      Reply(500, Failure(SendFailed), [])
    else
      var name, email := Shown(req.name), Shown(req.email);
      Send(OwnerMail(owner, name, email, req.message.s), ThanksMail(owner, name, email), deliver)
  }

  /** A request with every field a non-empty string either succeeds or fails on a send, never on validation. */
  lemma FilledRequestIsSent(name: string, email: string, message: string, owner: string, deliver: Mail -> bool)
    requires name != [] && email != [] && message != []
    ensures var r := Handle(Request(Text(name), Text(email), Text(message)), owner, deliver);
      r.status != 400 && r.attempts != []
      && r.attempts[0].html == NotificationHtml(name, email, message)
      && (r.status == 200 <==> deliver(OwnerMail(owner, name, email, message)) && deliver(ThanksMail(owner, name, email)))
  {
  }

  /** The owner's notification never carries markup from the message. */
  lemma NotificationIsSafe(req: Request, owner: string, deliver: Mail -> bool)
    requires Handle(req, owner, deliver).attempts != []
    ensures var html := Handle(req, owner, deliver).attempts[0].html;
      Count('<', html) == Count('<', NotificationHtml([], [], [])) + Count('<', Shown(req.name)) + Count('<', Shown(req.email))
  {
    OnlyMessageEscaped(Shown(req.name), Shown(req.email), req.message.s);
  }
}
