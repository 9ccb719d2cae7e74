/** The envelopes that travel between the chat channels and the agent loop
    (`nanobot.bus.events`). */
module Events {

  /** A message received from a chat platform. */
  datatype InboundMessage = InboundMessage(channel: string, senderId: string, chatId: string, content: string)

  /** A message to be delivered by the channel adapter named `channel`. */
  datatype OutboundMessage = OutboundMessage(channel: string, chatId: string, content: string)
}
