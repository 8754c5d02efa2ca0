// The method frames a client sends, and how their arguments are decoded.
module Methods {
  import opened Wrappers
  import opened Bytes
  import opened Values
  import opened ArgumentCodec

  const START_OK := 0x000A000B
  const TUNE_OK := 0x000A001F
  const OPEN := 0x000A0028
  const CLOSE := 0x000A0032
  const CHANNEL_OPEN := 0x0014000A
  const CHANNEL_CLOSE := 0x00140028
  const BASIC_QOS := 0x003C000A
  const BASIC_CONSUME := 0x003C0014
  const BASIC_CANCEL := 0x003C001E
  const BASIC_PUBLISH := 0x003C0028
  const BASIC_ACK := 0x003C0050
  const BASIC_NACK := 0x003C0078
  const EXCHANGE_DECLARE := 0x0028000A
  const QUEUE_DECLARE := 0x0032000A
  const QUEUE_BIND := 0x00320014

  datatype Method =
    | StartOk(peerProperties: seq<Entry>, mechanism: bytes, response: bytes, locale: bytes)
    | TuneOk(channelMax: nat, frameMax: nat, heartbeat: nat)
    | Open(vhost: bytes, capabilities: bytes, insist: bool)
    | Close
    | ChannelOpen(reserved: bytes)
    | ChannelClose(replyCode: nat, replyText: bytes, classId: nat, methodId: nat)
    | BasicQos(prefetchSize: nat, prefetchCount: nat, global: bool)
    | BasicPublish(exchange: bytes, routingKey: bytes, mandatory: bool, immediate: bool)
    | BasicConsume(queue: bytes, consumerTag: bytes)
    | BasicAck(deliveryTag: nat, multiple: bool)
    | BasicNack(deliveryTag: nat, multiple: bool, requeue: bool)
    | BasicCancel(consumerTag: bytes)
    | ExchangeDeclare(exchange: bytes, kind: bytes)
    | QueueDeclare(queue: bytes)
    | QueueBind(queue: bytes, exchange: bytes, routingKey: bytes)

  // The names that replies repeat are short strings.
  predicate ShortNames(m: Method) {
    && (m.QueueDeclare? ==> |m.queue| < 256)
    && (m.BasicConsume? ==> |m.consumerTag| < 256)
    && (m.BasicCancel? ==> |m.consumerTag| < 256)
  }

  // The arguments start after the four octets of the method id.
  function Arguments(fmt: string, payload: bytes): (r: Result<seq<Value>>)
    ensures r.Ok? ==> FitsAll(fmt, r.value)
  {
    var r :- Loads(fmt, payload, 4);
    Ok(r.value)
  }

  function DecodeStartOk(payload: bytes): (r: Result<Method>)
    ensures r.Ok? ==> r.value.StartOk? && ShortNames(r.value)
  {
    var v :- Arguments("FsSs", payload);
    assert Fits('F', v[0]) && Fits('s', v[1]) && Fits('S', v[2]) && Fits('s', v[3]);
    Ok(StartOk(v[0].entries, v[1].text, v[2].text, v[3].text))
  }

  function DecodeTuneOk(payload: bytes): (r: Result<Method>)
    ensures r.Ok? ==> r.value.TuneOk? && ShortNames(r.value)
  {
    var v :- Arguments("BlB", payload);
    assert Fits('B', v[0]) && Fits('l', v[1]) && Fits('B', v[2]);
    Ok(TuneOk(v[0].number, v[1].number, v[2].number))
  }

  function DecodeOpen(payload: bytes): (r: Result<Method>)
    ensures r.Ok? ==> r.value.Open? && ShortNames(r.value)
  {
    var v :- Arguments("ssb", payload);
    assert Fits('s', v[0]) && Fits('s', v[1]) && Fits('b', v[2]);
    Ok(Open(v[0].text, v[1].text, v[2].flag))
  }

  function DecodeChannelOpen(payload: bytes): (r: Result<Method>)
    ensures r.Ok? ==> r.value.ChannelOpen? && ShortNames(r.value)
  {
    var v :- Arguments("s", payload);
    assert Fits('s', v[0]);
    Ok(ChannelOpen(v[0].text))
  }

  function DecodeChannelClose(payload: bytes): (r: Result<Method>)
    ensures r.Ok? ==> r.value.ChannelClose? && ShortNames(r.value)
  {
    var v :- Arguments("BsBB", payload);
    assert Fits('B', v[0]) && Fits('s', v[1]) && Fits('B', v[2]) && Fits('B', v[3]);
    Ok(ChannelClose(v[0].number, v[1].text, v[2].number, v[3].number))
  }

  function DecodeBasicQos(payload: bytes): (r: Result<Method>)
    ensures r.Ok? ==> r.value.BasicQos? && ShortNames(r.value)
  {
    var v :- Arguments("lBb", payload);
    assert Fits('l', v[0]) && Fits('B', v[1]) && Fits('b', v[2]);
    Ok(BasicQos(v[0].number, v[1].number, v[2].flag))
  }

  function DecodeBasicPublish(payload: bytes): (r: Result<Method>)
    ensures r.Ok? ==> r.value.BasicPublish? && ShortNames(r.value)
  {
    var v :- Arguments("Bssbb", payload);
    assert Fits('s', v[1]) && Fits('s', v[2]) && Fits('b', v[3]) && Fits('b', v[4]);
    Ok(BasicPublish(v[1].text, v[2].text, v[3].flag, v[4].flag))
  }

  function DecodeBasicConsume(payload: bytes): (r: Result<Method>)
    ensures r.Ok? ==> r.value.BasicConsume? && ShortNames(r.value)
  {
    var v :- Arguments("BssbbbbF", payload);
    assert Fits('s', v[1]) && Fits('s', v[2]);
    Ok(BasicConsume(v[1].text, v[2].text))
  }

  function DecodeBasicAck(payload: bytes): (r: Result<Method>)
    ensures r.Ok? ==> r.value.BasicAck? && ShortNames(r.value)
  {
    var v :- Arguments("Lb", payload);
    assert Fits('L', v[0]) && Fits('b', v[1]);
    Ok(BasicAck(v[0].number, v[1].flag))
  }

  function DecodeBasicNack(payload: bytes): (r: Result<Method>)
    ensures r.Ok? ==> r.value.BasicNack? && ShortNames(r.value)
  {
    var v :- Arguments("Lbb", payload);
    assert Fits('L', v[0]) && Fits('b', v[1]) && Fits('b', v[2]);
    Ok(BasicNack(v[0].number, v[1].flag, v[2].flag))
  }

  function DecodeBasicCancel(payload: bytes): (r: Result<Method>)
    ensures r.Ok? ==> r.value.BasicCancel? && ShortNames(r.value)
  {
    var v :- Arguments("sb", payload);
    assert Fits('s', v[0]);
    Ok(BasicCancel(v[0].text))
  }

  function DecodeExchangeDeclare(payload: bytes): (r: Result<Method>)
    ensures r.Ok? ==> r.value.ExchangeDeclare? && ShortNames(r.value)
  {
    var v :- Arguments("BssbbbbbF", payload);
    assert Fits('s', v[1]) && Fits('s', v[2]);
    Ok(ExchangeDeclare(v[1].text, v[2].text))
  }

  function DecodeQueueDeclare(payload: bytes): (r: Result<Method>)
    ensures r.Ok? ==> r.value.QueueDeclare? && ShortNames(r.value)
  {
    var v :- Arguments("BsbbbbbF", payload);
    assert Fits('s', v[1]);
    Ok(QueueDeclare(v[1].text))
  }

  function DecodeQueueBind(payload: bytes): (r: Result<Method>)
    ensures r.Ok? ==> r.value.QueueBind? && ShortNames(r.value)
  {
    var v :- Arguments("BsssbF", payload);
    assert Fits('s', v[1]) && Fits('s', v[2]) && Fits('s', v[3]);
    Ok(QueueBind(v[1].text, v[2].text, v[3].text))
  }

  // The dispatch on the method id.
  function DecodeMethod(id: nat, payload: bytes): (r: Result<Method>)
    ensures r.Ok? ==> ShortNames(r.value)
  {
    if id == START_OK then DecodeStartOk(payload)
    else if id == TUNE_OK then DecodeTuneOk(payload)
    else if id == OPEN then DecodeOpen(payload)
    else if id == CLOSE then Ok(Close)
    else if id == CHANNEL_OPEN then DecodeChannelOpen(payload)
    else if id == CHANNEL_CLOSE then DecodeChannelClose(payload)
    else if id == BASIC_QOS then DecodeBasicQos(payload)
    else if id == BASIC_PUBLISH then DecodeBasicPublish(payload)
    else if id == BASIC_CONSUME then DecodeBasicConsume(payload)
    else if id == BASIC_ACK then DecodeBasicAck(payload)
    else if id == BASIC_NACK then DecodeBasicNack(payload)
    else if id == BASIC_CANCEL then DecodeBasicCancel(payload)
    else if id == EXCHANGE_DECLARE then DecodeExchangeDeclare(payload)
    else if id == QUEUE_DECLARE then DecodeQueueDeclare(payload)
    else if id == QUEUE_BIND then DecodeQueueBind(payload)
    else Raised(KeyError)
  }

  // ---- AMQPLAIN: a table body without its length prefix, read flat as 'soSsoS' ----

  function DecodeAmqplain(response: bytes): (r: Result<seq<Value>>)
    ensures r.Ok? ==> |r.value| == 6 && r.value[2].Str? && r.value[5].Str?
  {
    var r :- Loads("soSsoS", response, 0);
    assert Fits('S', r.value[2]) && Fits('S', r.value[5]);
    Ok(r.value)
  }
}
