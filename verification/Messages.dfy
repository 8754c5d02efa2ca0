// The message a channel is receiving.
module Messages {
  import opened Bytes
  import opened Properties
  import opened Frames

  class Message {
    const headers: PropertyMap
    const bodySize: nat
    var content: bytes

    constructor (frame: Frame)
      requires frame.HeaderFrame?
      ensures headers == frame.properties && bodySize == frame.bodySize && content == []
    {
      headers, bodySize, content := frame.properties, frame.bodySize, [];
    }

    method AddContent(data: bytes)
      modifies this`content
      ensures content == old(content) + data
    {
      content := content + data;
    }

    predicate IsComplete()
      reads this`content
    {
      bodySize == |content|
    }
  }
}
