/**
 The constants of the peer-to-peer collaboration protocol: the handshake
 marker, the endpoint and role names, the connection-state names, the
 numeric message codes and the pair of tables that translate between a
 message's symbolic name and its code.
 */
module PeerInterface {
  import opened Wrappers
  import MapInversion

  /** Fixed value that identifies a conforming peer. */
  const MAGIC_NUMBER := 9

  // ---------------------------------------------------------------------------
  // Endpoints and roles
  // ---------------------------------------------------------------------------

  const CLIENT := "client"
  const SERVER := "server"
  const PARTNER_ROLE := "partner"
  const HOST_ROLE := "host"

  /** Which end of the transport a peer is. */
  datatype Endpoint = Client | Server

  /** Which side of the collaboration a peer is: the host listens, the partner connects. */
  datatype Role = Partner | Host

  function EndpointName(e: Endpoint): string
  {
    match e
    case Client => CLIENT
    case Server => SERVER
  }

  function RoleName(r: Role): string
  {
    match r
    case Partner => PARTNER_ROLE
    case Host => HOST_ROLE
  }

  /** The two endpoint names are distinct, so a name identifies its endpoint. */
  lemma EndpointNamesDistinct()
    ensures forall e1, e2 :: EndpointName(e1) == EndpointName(e2) <==> e1 == e2
  {
  }

  /** The two role names are distinct, so a name identifies its role. */
  lemma RoleNamesDistinct()
    ensures forall r1, r2 :: RoleName(r1) == RoleName(r2) <==> r1 == r2
  {
  }

  // ---------------------------------------------------------------------------
  // Connection states
  // ---------------------------------------------------------------------------

  const STATE_CONNECTING := "connecting"
  const STATE_CONNECTED := "connected"
  const STATE_REJECT_TRIGGERED_DISCONNECTING := "disconnecting-on-rejected"
  const STATE_DISCONNECTING := "disconnecting"
  const STATE_DISCONNECTED := "disconnected"

  /**
   The lifecycle states of one peer link. Only the names are defined here;
   which state follows which is not part of this model.
   */
  datatype ConnectionState =
    | Connecting
    | Connected
    | RejectTriggeredDisconnecting
    | Disconnecting
    | Disconnected

  function StateName(s: ConnectionState): string
  {
    match s
    case Connecting => STATE_CONNECTING
    case Connected => STATE_CONNECTED
    case RejectTriggeredDisconnecting => STATE_REJECT_TRIGGERED_DISCONNECTING
    case Disconnecting => STATE_DISCONNECTING
    case Disconnected => STATE_DISCONNECTED
  }

  /** The state a name stands for, if it names one. */
  function StateNamed(name: string): (r: Option<ConnectionState>)
    ensures r.Some? ==> StateName(r.value) == name
    ensures r.None? ==> forall s :: StateName(s) != name
  {
    if name == STATE_CONNECTING then Some(Connecting)
    else if name == STATE_CONNECTED then Some(ConnectionState.Connected)
    else if name == STATE_REJECT_TRIGGERED_DISCONNECTING then Some(RejectTriggeredDisconnecting)
    else if name == STATE_DISCONNECTING then Some(Disconnecting)
    else if name == STATE_DISCONNECTED then Some(Disconnected)
    else None
  }

  /** Reading back a state's name gives that state. */
  lemma StateNameRoundTrip(s: ConnectionState)
    ensures StateNamed(StateName(s)) == Some(s)
  {
  }

  /** The five state names are pairwise distinct. */
  lemma StateNamesDistinct()
    ensures forall s1, s2 :: StateName(s1) == StateName(s2) <==> s1 == s2
  {
  }

  // ---------------------------------------------------------------------------
  // Message types and sub-types
  // ---------------------------------------------------------------------------

  /** Sent by the partner on connection, sent back by the host as acknowledgment. */
  const CONNECTED := 0
  /** Sent by the partner before disconnecting, sent back by the host as acknowledgment. */
  const DISCONNECT := 1
  /** Announces a view; its payload is the base file name. */
  const SHARE_VIEW := 2
  const SHARE_VIEW_ACK := 3
  const VIEW_CHUNK := 4
  /** Reply to a view chunk; its payload size says what was received. */
  const VIEW_CHUNK_ACK := 5
  /** The whole view has been sent. */
  const END_OF_VIEW := 6
  const END_OF_VIEW_ACK := 7
  /** The bytes sent and the bytes received differ. */
  const BAD_VIEW_SEND := 8
  const SYNTAX := 9
  const SELECTION := 10
  const POSITION := 11
  const EDIT := 12

  /** Sub-type carried by every message but an edit. */
  const EDIT_TYPE_NA := 120

  /** The thirteen kinds of protocol message. */
  datatype MessageType =
    | Connected
    | Disconnect
    | ShareView
    | ShareViewAck
    | ViewChunk
    | ViewChunkAck
    | EndOfView
    | EndOfViewAck
    | BadViewSend
    | Syntax
    | Selection
    | Position
    | Edit

  /**
   Message sub-types. Only the "not applicable" sentinel is defined; the
   edit sub-types are still open in the protocol.
   */
  datatype SubType = EditTypeNA

  /** The wire code of a message type; the type codes fill the range 0..12. */
  function TypeCode(t: MessageType): (c: int)
    ensures CONNECTED <= c <= EDIT
  {
    match t
    case Connected => CONNECTED
    case Disconnect => DISCONNECT
    case ShareView => SHARE_VIEW
    case ShareViewAck => SHARE_VIEW_ACK
    case ViewChunk => VIEW_CHUNK
    case ViewChunkAck => VIEW_CHUNK_ACK
    case EndOfView => END_OF_VIEW
    case EndOfViewAck => END_OF_VIEW_ACK
    case BadViewSend => BAD_VIEW_SEND
    case Syntax => SYNTAX
    case Selection => SELECTION
    case Position => POSITION
    case Edit => EDIT
  }

  /** The message type with code `c`, if there is one: exactly the codes 0..12 have one. */
  function TypeOf(c: int): (r: Option<MessageType>)
    ensures r.Some? <==> CONNECTED <= c <= EDIT
    ensures r.Some? ==> TypeCode(r.value) == c
  {
    if c == CONNECTED then Some(MessageType.Connected)
    else if c == DISCONNECT then Some(Disconnect)
    else if c == SHARE_VIEW then Some(ShareView)
    else if c == SHARE_VIEW_ACK then Some(ShareViewAck)
    else if c == VIEW_CHUNK then Some(ViewChunk)
    else if c == VIEW_CHUNK_ACK then Some(ViewChunkAck)
    else if c == END_OF_VIEW then Some(EndOfView)
    else if c == END_OF_VIEW_ACK then Some(EndOfViewAck)
    else if c == BAD_VIEW_SEND then Some(BadViewSend)
    else if c == SYNTAX then Some(Syntax)
    else if c == SELECTION then Some(Selection)
    else if c == POSITION then Some(Position)
    else if c == EDIT then Some(Edit)
    else None
  }

  /** Decoding a type's code gives back the type: no two types share a code. */
  lemma TypeCodeRoundTrip(t: MessageType)
    ensures TypeOf(TypeCode(t)) == Some(t)
  {
  }

  /** The wire code of a sub-type; it lies outside the type-code range, so the two never collide. */
  function SubTypeCode(s: SubType): (c: int)
    ensures forall t :: TypeCode(t) != c
  {
    match s
    case EditTypeNA => EDIT_TYPE_NA
  }

  // ---------------------------------------------------------------------------
  // The symbolic/numeric tables
  // ---------------------------------------------------------------------------

  /** An entry of the shared table: a message type or a sub-type. */
  datatype Symbol = TypeSymbol(t: MessageType) | SubTypeSymbol(s: SubType)

  /** The symbolic name under which an entry appears in the table. */
  function SymbolName(x: Symbol): string
  {
    match x
    case TypeSymbol(Connected) => "CONNECTED"
    case TypeSymbol(Disconnect) => "DISCONNECT"
    case TypeSymbol(ShareView) => "SHARE_VIEW"
    case TypeSymbol(ShareViewAck) => "SHARE_VIEW_ACK"
    case TypeSymbol(ViewChunk) => "VIEW_CHUNK"
    case TypeSymbol(ViewChunkAck) => "VIEW_CHUNK_ACK"
    case TypeSymbol(EndOfView) => "END_OF_VIEW"
    case TypeSymbol(EndOfViewAck) => "END_OF_VIEW_ACK"
    case TypeSymbol(BadViewSend) => "BAD_VIEW_SEND"
    case TypeSymbol(Syntax) => "SYNTAX"
    case TypeSymbol(Selection) => "SELECTION"
    case TypeSymbol(Position) => "POSITION"
    case TypeSymbol(Edit) => "EDIT"
    case SubTypeSymbol(EditTypeNA) => "EDIT_TYPE_NA"
  }

  function SymbolCode(x: Symbol): int
  {
    match x
    case TypeSymbol(t) => TypeCode(t)
    case SubTypeSymbol(s) => SubTypeCode(s)
  }

  /** The entry with code `c`, if any; distinct entries have distinct codes. */
  function SymbolOf(c: int): (r: Option<Symbol>)
    ensures r.Some? ==> SymbolCode(r.value) == c
    ensures r.None? ==> forall x :: SymbolCode(x) != c
  {
    match TypeOf(c)
    case Some(t) => Some(TypeSymbol(t))
    case None => if c == EDIT_TYPE_NA then Some(SubTypeSymbol(EditTypeNA)) else None
  }

  /** Decoding an entry's code gives back the entry. */
  lemma SymbolCodeRoundTrip(x: Symbol)
    ensures SymbolOf(SymbolCode(x)) == Some(x)
  {
    match x
    case TypeSymbol(t) => TypeCodeRoundTrip(t);
    case SubTypeSymbol(EditTypeNA) =>
      assert TypeOf(EDIT_TYPE_NA) == None;
  }

  /** The codes in use: the type codes 0..12 and the sentinel 120. */
  function TableCodes(): (cs: set<int>)
    ensures forall c :: c in cs <==> CONNECTED <= c <= EDIT || c == EDIT_TYPE_NA
    ensures |cs| == 14
  {
    {CONNECTED, DISCONNECT, SHARE_VIEW, SHARE_VIEW_ACK, VIEW_CHUNK, VIEW_CHUNK_ACK, END_OF_VIEW,
     END_OF_VIEW_ACK, BAD_VIEW_SEND, SYNTAX, SELECTION, POSITION, EDIT, EDIT_TYPE_NA}
  }

  /** Symbolic name to numeric code for every message type and sub-type. */
  const SYMBOLIC_TO_NUMERIC: map<string, int> := map[
    "CONNECTED" := 0,
    "DISCONNECT" := 1,
    "SHARE_VIEW" := 2,
    "SHARE_VIEW_ACK" := 3,
    "VIEW_CHUNK" := 4,
    "VIEW_CHUNK_ACK" := 5,
    "END_OF_VIEW" := 6,
    "END_OF_VIEW_ACK" := 7,
    "BAD_VIEW_SEND" := 8,
    "SYNTAX" := 9,
    "SELECTION" := 10,
    "POSITION" := 11,
    "EDIT" := 12,
    "EDIT_TYPE_NA" := 120
  ]

  /**
   The table agrees with the named constants: every entry is listed under
   its name with its code, and every name in the table belongs to the entry
   its code decodes to.
   */
  lemma TableMatchesSymbols()
    ensures forall x :: SymbolName(x) in SYMBOLIC_TO_NUMERIC && SYMBOLIC_TO_NUMERIC[SymbolName(x)] == SymbolCode(x)
    ensures forall k :: k in SYMBOLIC_TO_NUMERIC ==>
              SymbolOf(SYMBOLIC_TO_NUMERIC[k]).Some? && SymbolName(SymbolOf(SYMBOLIC_TO_NUMERIC[k]).value) == k
  {
  }

  /** The table's codes are pairwise distinct, so inverting it loses nothing. */
  lemma TableInjective()
    ensures MapInversion.Injective(SYMBOLIC_TO_NUMERIC)
  {
  }

  /** The table's codes are exactly the type codes 0..12 and the sentinel 120. */
  lemma TableValues()
    ensures SYMBOLIC_TO_NUMERIC.Values == TableCodes()
  {
    TableMatchesSymbols();
    forall c | c in TableCodes()
      ensures c in SYMBOLIC_TO_NUMERIC.Values
    {
      var x := SymbolOf(c).value;
      assert SYMBOLIC_TO_NUMERIC[SymbolName(x)] == c;
    }
  }

  /**
   Derives the numeric-to-symbolic table by inverting the symbolic-to-numeric
   one. The result has one entry per code in use, maps each code to the name
   of its entry, and the two tables are mutual inverses.
   */
  method BuildNumericToSymbolic() returns (numericToSymbolic: map<int, string>)
    ensures MapInversion.IsInverse(SYMBOLIC_TO_NUMERIC, numericToSymbolic)
    ensures MapInversion.IsInverse(numericToSymbolic, SYMBOLIC_TO_NUMERIC)
    ensures numericToSymbolic.Keys == TableCodes() && |numericToSymbolic| == 14
    ensures forall x :: SymbolCode(x) in numericToSymbolic && numericToSymbolic[SymbolCode(x)] == SymbolName(x)
  {
    TableInjective();
    numericToSymbolic := MapInversion.Invert(SYMBOLIC_TO_NUMERIC);
    MapInversion.InverseIsMutual(SYMBOLIC_TO_NUMERIC, numericToSymbolic);
    TableValues();
    TableMatchesSymbols();
  }
}
