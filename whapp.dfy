/** The values the messaging-service client hands the bridge: identifiers,
    contacts, participants and messages, reduced to the fields the bridge
    reads. */
module Whapp {

  datatype Option<T> = None | Some(value: T)

  /** A value, or the text of the error that prevented it. */
  datatype Result<T> = Ok(value: T) | Err(error: string)

  type Bytes = seq<bv8>

  /** `whapp.ID`: a user (or chat) part and a server part. */
  datatype Id = Id(user: string, server: string)

  datatype Contact = Contact(id: Id, name: string, pushname: string)

  /** `types.Participant`: a chat member and its contact card. */
  datatype Participant = Participant(id: Id, contact: Contact)

  datatype Location = Location(latitude: real, longitude: real)

  /** The chat a message belongs to, as the message reports it. */
  datatype ChatRef = ChatRef(id: Id, name: string, isGroup: bool)

  /** `whapp.Me`: the local user. */
  datatype Me = Me(selfId: Id, pushname: string)

  /** `whapp.Message`, with the notification fields (`subtype`,
      `recipients`, `from`) and the media fields (`mediaHash`,
      `mediaFilename`, `mimeType`, `caption`) side by side. */
  datatype Message = Message(
    id: string,
    typ: string,
    chat: ChatRef,
    sender: Option<Contact>,
    timestamp: int,
    sentByMe: bool,
    sentByMeFromWeb: bool,
    isNotification: bool,
    subtype: string,
    recipients: seq<Id>,
    from: Id,
    quoted: Option<Message>,
    location: Option<Location>,
    isMms: bool,
    mediaHash: string,
    mediaFilename: string,
    mimeType: string,
    caption: string)
}
