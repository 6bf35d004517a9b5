/** The columns of Twidere's direct-message table (`TweetStore.DirectMessages`). The column-name
    strings live in TweetStore, which is not part of this model: a column is named here
    by an enumeration value. */
module TweetStore {

  /** `DirectMessages.ACCOUNT_ID`, `MESSAGE_ID`, ... : the keys the record reads from a bag. */
  datatype Column =
    | AccountId | MessageId | MessageTimestamp | SenderId | RecipientId | IsOutgoing
    | TextHtml | TextPlain | SenderName | RecipientName | SenderScreenName | RecipientScreenName
    | SenderProfileImageUrl | RecipientProfileImageUrl
}
