/**
 * The `emails.json` document that the alert sender and the subscriber
 * manager share: the subscriber list and the ledger of alerts already sent.
 * An absent key is `None`.
 */
module EmailsFile {
  import opened Wrappers

  /** One entry of `subscribers`: `email`, `subscribed_date`, `unsubscribe_token`. */
  datatype Subscriber = Subscriber(email: string, subscribedDate: Option<string>, token: Option<string>)

  datatype EmailsDoc = EmailsDoc(subscribers: Option<seq<Subscriber>>, sentAlerts: Option<seq<string>>)
}
