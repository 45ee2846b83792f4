/** The state `ModScanWindow` keeps between button clicks and timer ticks:
    the pymodbus client it is connected through (or none), whether the poll
    timer runs, and what the table last showed. The client library and the
    Qt timer are outside the model: what they would answer is given to each
    operation as a parameter. */
module ModScan {
  import opened Words
  import opened Convert

  datatype Option<T> = None | Some(value: T)

  /** The entries of the mode combo box. */
  datatype Mode = TCP | RTU

  /** What the connection widgets hold when Connect is clicked. */
  datatype ConnectionSettings = ConnectionSettings(
    mode: Mode, ip: string, port: int, serialPort: string, baudrate: int, slaveId: int)

  /** A pymodbus client, identified by how it was constructed. */
  datatype Client =
    | TcpClient(host: string, port: int)
    | SerialClient(device: string, baudrate: int, timeoutSeconds: int)

  /** How the foreign part of `connect_modbus` ends: `connect()` returned True,
      returned False, or the constructor or `connect()` raised. */
  datatype ConnectOutcome = Connected | Refused | Raised

  /** How the old client's `close()` ends: it returned, or it raised. It is
      called outside the `try` block, so an exception from it leaves
      `connect_modbus` at once. */
  datatype CloseOutcome = CloseReturned | CloseRaised

  /** The entries of the function combo box. */
  datatype FunctionCode = ReadCoils | ReadDiscreteInputs | ReadHoldingRegisters | ReadInputRegisters

  /** The arguments of one `read_*` call. */
  datatype ReadRequest = ReadRequest(code: FunctionCode, address: int, count: int, slave: int)

  /** One read call sent to a client. */
  datatype ReadCall = ReadCall(client: Client, request: ReadRequest)

  /** How the foreign `read_*` call ends: a response (whose `isError()` may be
      true) carrying `bits` and `registers`, or an exception. */
  datatype ReadOutcome =
    | Response(isError: bool, bits: seq<bool>, registers: seq<Word>)
    | ReadRaised

  /** The client `connect_modbus` constructs for the settings: TCP for mode
      TCP, otherwise an RTU serial client with a one-second timeout. */
  function ClientFor(s: ConnectionSettings): (c: Client)
    ensures c.TcpClient? <==> s.mode == TCP
    ensures c.TcpClient? ==> c.host == s.ip && c.port == s.port
    ensures c.SerialClient? ==> c.device == s.serialPort && c.baudrate == s.baudrate && c.timeoutSeconds == 1
  {
    if s.mode == TCP then TcpClient(s.ip, s.port) else SerialClient(s.serialPort, s.baudrate, 1)
  }

  /** The words `read_data` hands to the converter: the response's bits for
      the two bit functions, its registers for the two register functions. */
  function Payload(f: FunctionCode, r: ReadOutcome): (data: seq<Word>)
    requires r.Response?
    ensures (f.ReadCoils? || f.ReadDiscreteInputs?) ==>
      |data| == |r.bits| && forall k :: 0 <= k < |data| ==> (data[k] == 1 <==> r.bits[k])
    ensures (f.ReadHoldingRegisters? || f.ReadInputRegisters?) ==> data == r.registers
  {
    match f
    case ReadCoils => BitsAsWords(r.bits)
    case ReadDiscreteInputs => BitsAsWords(r.bits)
    case ReadHoldingRegisters => r.registers
    case ReadInputRegisters => r.registers
  }

  /** Whether a read through `client` ending in `outcome` reaches
      `convert_data` and `display_data`. */
  function Displays(client: Option<Client>, outcome: ReadOutcome): (b: bool)
    ensures b ==> client.Some? && outcome.Response?
    ensures outcome.Response? && outcome.isError ==> !b
    ensures client.Some? && outcome.Response? && !outcome.isError ==> b
  {
    client.Some? && outcome.Response? && !outcome.isError
  }

  class ModScanWindow {
    /** `self.client`: the client connected through, if any. */
    var client: Option<Client>
    /** Whether `self.polling_timer` is running. */
    var polling: bool
    /** The values `display_data` last put in the table. */
    var table: seq<Value>
    /** The clients whose `close()` was called, oldest first. */
    var closed: seq<Client>
    /** The read calls sent to clients, oldest first. */
    var calls: seq<ReadCall>

    /** `__init__`: no client, the timer stopped, an empty table. */
    constructor ()
      ensures client == None && !polling && table == [] && closed == [] && calls == []
    {
      client := None;
      polling := false;
      table := [];
      closed := [];
      calls := [];
    }

    /** `connect_modbus`: closes and drops the current client, then keeps the
        new one only if `connect()` returned True. If the old client's
        `close()` raises, the exception escapes (`escaped`) before the client
        is cleared or a new one is built. */
    method ConnectModbus(settings: ConnectionSettings, closing: CloseOutcome, outcome: ConnectOutcome)
      returns (escaped: bool)
      modifies this
      ensures escaped <==> old(client).Some? && closing == CloseRaised
      ensures closed == if old(client).Some? then old(closed) + [old(client).value] else old(closed)
      ensures client == if escaped then old(client)
                        else if outcome == Connected then Some(ClientFor(settings)) else None
      ensures polling == old(polling) && table == old(table) && calls == old(calls)
    {
      escaped := false;
      if client.Some? {
        closed := closed + [client.value];
        if closing == CloseRaised {
          escaped := true;
          return;
        }
        client := None;
      }
      match outcome {
        case Connected =>
          client := Some(ClientFor(settings));
        case Refused =>
          client := Some(ClientFor(settings));
          client := None;
        case Raised =>
          client := None;
      }
    }

    /** `read_data`: without a client, warns and sends nothing; otherwise sends
        the read, and shows the converted payload unless the client answered
        with an error or raised. */
    method ReadData(request: ReadRequest, t: DataType, outcome: ReadOutcome)
      modifies this
      ensures old(client).None? ==> unchanged(this)
      ensures old(client).Some? ==> calls == old(calls) + [ReadCall(old(client).value, request)]
      ensures table == if Displays(old(client), outcome)
                       then Converted(Payload(request.code, outcome), t) else old(table)
      ensures client == old(client) && polling == old(polling) && closed == old(closed)
    {
      if client.None? {
        return;
      }
      calls := calls + [ReadCall(client.value, request)];
      match outcome {
        case ReadRaised =>
          return;
        case Response(isError, _, _) =>
          if isError {
            return;
          }
          var data := Payload(request.code, outcome);
          var converted := ConvertData(data, t);
          table := converted;
      }
    }

    /** `toggle_polling`: check-box state 2 (checked) starts the timer, any
        other state stops it. */
    method TogglePolling(state: int)
      modifies this
      ensures polling <==> state == 2
      ensures client == old(client) && table == old(table) && closed == old(closed) && calls == old(calls)
    {
      if state == 2 {
        polling := true;
      } else {
        polling := false;
      }
    }

    /** A tick of the poll timer, which is connected to `read_data`: a read
        while the timer runs, nothing while it is stopped. */
    method PollTick(request: ReadRequest, t: DataType, outcome: ReadOutcome)
      modifies this
      ensures !old(polling) || old(client).None? ==> unchanged(this)
      ensures old(polling) && old(client).Some? ==> calls == old(calls) + [ReadCall(old(client).value, request)]
      ensures table == if old(polling) && Displays(old(client), outcome)
                       then Converted(Payload(request.code, outcome), t) else old(table)
      ensures client == old(client) && polling == old(polling) && closed == old(closed)
    {
      if polling {
        ReadData(request, t, outcome);
      }
    }
  }
}
