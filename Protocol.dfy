/** The JSON messages exchanged over the WebSocket between the browser
    clients and the matchmaking server, as an abstract datatype. */
module Protocol {

  /** An opaque session description (the SDP of an offer or an answer). */
  type Sdp = string

  /** An opaque ICE candidate descriptor. */
  type Candidate = string

  datatype Option<T> = None | Some(value: T)

  /** One message, discriminated by its `type` field. */
  datatype Message =
    | Join(mode: string)          // client -> server
    | Waiting                     // server -> client
    | Paired(initiator: bool)     // server -> client
    | Chat(text: string)          // relayed both ways
    | Offer(offer: Sdp)           // relayed both ways
    | Answer(answer: Sdp)         // relayed both ways
    | Ice(candidate: Candidate)   // relayed both ways
    | PartnerLeft                 // server -> client
    | Leave                       // client -> server
    | Other(tag: string)          // any other `type` (or none at all)

  /** What `JSON.parse` makes of one inbound frame. `JsonNull` is the
      literal `null`, which parses but is not an object. */
  datatype Frame = Unparseable | JsonNull | Parsed(msg: Message)
}
