/** The Twitter4J objects the record is built from, as plain values:
    only the getters the record calls. */
module Twitter4J {
  import opened Java

  /** `java.util.Date`: `getTime()` in epoch milliseconds. */
  datatype Date = Date(time: Long)

  /** `twitter4j.User`: `getId()`, `getName()`, `getScreenName()`, and the text of
      `getProfileImageUrlHttps()` as `Utils.parseString` renders it (null for a null URL). */
  datatype User = User(
    id: Long,
    name: Option<string>,
    screenName: Option<string>,
    profileImageUrlHttps: Option<string>)

  /** `twitter4j.DirectMessage`: `getId()`, `getCreatedAt()`, `getText()`,
      `getSender()`, `getRecipient()`; any reference may be null. */
  datatype DirectMessage = DirectMessage(
    id: Long,
    createdAt: Option<Date>,
    text: Option<string>,
    sender: Option<User>,
    recipient: Option<User>)
}
