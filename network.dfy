/** The node of `src/server.rs`: the wire messages, the decoding of a received byte
    string into a message (`bytes_to_cmd`) and the initial node state (`Server::new`).
    A frame is a 12-byte command tag, padded with zero bytes, followed by the payload. */
module Network {
  import opened Base
  import Blocks
  import Transactions
  import Utxo

  const KNOWN_NODE1: string := "localhost:3000"
  const CMD_LEN: nat := 12
  const VERSION: int32 := 1
  const UNKNOWN_COMMAND: string := "Unknown command in the server"

  // The command names the node compares against, as the ASCII bytes of their text.
  const ADDR_NAME: seq<byte> := [0x61, 0x64, 0x64, 0x72]                                // "addr"
  const BLOCK_NAME: seq<byte> := [0x62, 0x6c, 0x6f, 0x63, 0x6b]                         // "block"
  const INV_NAME: seq<byte> := [0x69, 0x6e, 0x76]                                       // "inv"
  const GETBLOCKS_NAME: seq<byte> := [0x67, 0x65, 0x74, 0x62, 0x6c, 0x6f, 0x63, 0x6b, 0x73] // "getblocks"
  const GETDATA_NAME: seq<byte> := [0x67, 0x65, 0x74, 0x64, 0x61, 0x74, 0x61]             // "getdata"
  const TX_NAME: seq<byte> := [0x74, 0x78]                                              // "tx"
  const VERSION_NAME: seq<byte> := [0x76, 0x65, 0x72, 0x73, 0x69, 0x6f, 0x6e]             // "version"

  datatype Blockmsg = Blockmsg(addFrom: string, block: Blocks.Block)

  datatype GetBlockmsg = GetBlockmsg(addFrom: string)

  datatype GetDatamsg = GetDatamsg(addFrom: string, kind: string, id: string)

  datatype Invmsg = Invmsg(addFrom: string, kind: string, items: seq<string>)

  datatype Txmsg = Txmsg(addFrom: string, transaction: Transactions.Transaction)

  datatype Versionmsg = Versionmsg(addFrom: string, version: int32, bestHeight: int32)

  datatype Message =
    | Addr(addresses: seq<string>)
    | Version(versionMsg: Versionmsg)
    | Tx(txMsg: Txmsg)
    | GetData(getDataMsg: GetDatamsg)
    | GetBlock(getBlockMsg: GetBlockmsg)
    | Inv(invMsg: Invmsg)
    | Block(blockMsg: Blockmsg)

  /** `bincode::deserialize` at each payload type: foreign code, taken as given; each
      may fail with an error. */
  datatype Decoders = Decoders(
    addr: seq<byte> -> Result<seq<string>>,
    block: seq<byte> -> Result<Blockmsg>,
    inv: seq<byte> -> Result<Invmsg>,
    getBlocks: seq<byte> -> Result<GetBlockmsg>,
    getData: seq<byte> -> Result<GetDatamsg>,
    tx: seq<byte> -> Result<Txmsg>,
    version: seq<byte> -> Result<Versionmsg>)

  /** The bytes with every zero byte dropped, the others kept in order. */
  function StripNul(s: seq<byte>): seq<byte> {
    if s == [] then [] else StripNul(s[..|s| - 1]) + (if s[|s| - 1] != 0 then [s[|s| - 1]] else [])
  }

  /** The if/else chain of `bytes_to_cmd` on the stripped command name and the payload. */
  function Dispatch(cmd: seq<byte>, data: seq<byte>, dec: Decoders): Result<Message> {
    if cmd == ADDR_NAME then
      match dec.addr(data) case Err(e) => Err(e) case Ok(d) => Ok(Addr(d))
    else if cmd == BLOCK_NAME then
      match dec.block(data) case Err(e) => Err(e) case Ok(d) => Ok(Block(d))
    else if cmd == INV_NAME then
      match dec.inv(data) case Err(e) => Err(e) case Ok(d) => Ok(Inv(d))
    else if cmd == GETBLOCKS_NAME then
      match dec.getBlocks(data) case Err(e) => Err(e) case Ok(d) => Ok(GetBlock(d))
    else if cmd == GETDATA_NAME then
      match dec.getData(data) case Err(e) => Err(e) case Ok(d) => Ok(GetData(d))
    else if cmd == TX_NAME then
      match dec.tx(data) case Err(e) => Err(e) case Ok(d) => Ok(Tx(d))
    else if cmd == VERSION_NAME then
      match dec.version(data) case Err(e) => Err(e) case Ok(d) => Ok(Version(d))
    else
      Err(UNKNOWN_COMMAND)
  }

  /** `bytes_to_cmd`: the first `CMD_LEN` bytes, with their zero bytes dropped, name the
      command; the rest is the payload handed to that command's decoder. The source
      slices without a length check, so a shorter frame panics. */
  method BytesToCmd(bytes: seq<byte>, dec: Decoders) returns (r: Result<Message>)
    requires |bytes| >= CMD_LEN
    ensures r == Dispatch(StripNul(bytes[..CMD_LEN]), bytes[CMD_LEN..], dec)
  {
    var cmd: seq<byte> := [];
    var cmdBytes := bytes[..CMD_LEN];
    var data := bytes[CMD_LEN..];
    for i := 0 to |cmdBytes|
      invariant cmd == StripNul(cmdBytes[..i])
    {
      assert cmdBytes[..i + 1][..i] == cmdBytes[..i];
      if 0 != cmdBytes[i] {
        cmd := cmd + [cmdBytes[i]];
      }
    }
    assert cmdBytes[..|cmdBytes|] == cmdBytes;
    r := Dispatch(cmd, data, dec);
  }

  // ---------------------------------------------------------------------------
  // The command table, an independent statement of what `Dispatch` decides.

  /** The seven commands the node understands. */
  datatype Command = AddrCmd | BlockCmd | InvCmd | GetBlocksCmd | GetDataCmd | TxCmd | VersionCmd

  /** The name of each command. */
  function Name(c: Command): seq<byte> {
    match c
    case AddrCmd => ADDR_NAME
    case BlockCmd => BLOCK_NAME
    case InvCmd => INV_NAME
    case GetBlocksCmd => GETBLOCKS_NAME
    case GetDataCmd => GETDATA_NAME
    case TxCmd => TX_NAME
    case VersionCmd => VERSION_NAME
  }

  /** The command whose tag announces a message. */
  function CommandOf(m: Message): Command {
    match m
    case Addr(_) => AddrCmd
    case Block(_) => BlockCmd
    case Inv(_) => InvCmd
    case GetBlock(_) => GetBlocksCmd
    case GetData(_) => GetDataCmd
    case Tx(_) => TxCmd
    case Version(_) => VersionCmd
  }

  /** Whether the payload decoder of command `c` accepts `data`. */
  predicate Decodes(c: Command, data: seq<byte>, dec: Decoders) {
    match c
    case AddrCmd => dec.addr(data).Ok?
    case BlockCmd => dec.block(data).Ok?
    case InvCmd => dec.inv(data).Ok?
    case GetBlocksCmd => dec.getBlocks(data).Ok?
    case GetDataCmd => dec.getData(data).Ok?
    case TxCmd => dec.tx(data).Ok?
    case VersionCmd => dec.version(data).Ok?
  }

  /** What command `c` makes of a payload, read off the table: its decoder's value,
      wrapped in `c`'s variant, or its decoder's error. */
  function Decoded(c: Command, data: seq<byte>, dec: Decoders): (r: Result<Message>)
    ensures r.Ok? <==> Decodes(c, data, dec)
    ensures r.Ok? ==> CommandOf(r.value) == c
  {
    match c
    case AddrCmd =>
      var d := dec.addr(data); if d.Ok? then Ok(Addr(d.value)) else Err(d.error)
    case BlockCmd =>
      var d := dec.block(data); if d.Ok? then Ok(Block(d.value)) else Err(d.error)
    case InvCmd =>
      var d := dec.inv(data); if d.Ok? then Ok(Inv(d.value)) else Err(d.error)
    case GetBlocksCmd =>
      var d := dec.getBlocks(data); if d.Ok? then Ok(GetBlock(d.value)) else Err(d.error)
    case GetDataCmd =>
      var d := dec.getData(data); if d.Ok? then Ok(GetData(d.value)) else Err(d.error)
    case TxCmd =>
      var d := dec.tx(data); if d.Ok? then Ok(Tx(d.value)) else Err(d.error)
    case VersionCmd =>
      var d := dec.version(data); if d.Ok? then Ok(Version(d.value)) else Err(d.error)
  }

  /** The tag of a message as sent: its command name, padded with zero bytes to `CMD_LEN`. */
  function Tag(c: Command): (t: seq<byte>)
    ensures |t| == CMD_LEN
  {
    var name := Name(c);
    name + seq(CMD_LEN - |name|, _ => 0 as byte)
  }

  /** Each name selects its own command: the dispatch on `c`'s name is the table entry
      for `c`, so it carries exactly the value or the error of `c`'s payload decoder, and
      succeeds exactly when that decoder does. */
  lemma DispatchSelectsCommand(c: Command, data: seq<byte>, dec: Decoders)
    ensures Dispatch(Name(c), data, dec) == Decoded(c, data, dec)
    ensures var r := Dispatch(Name(c), data, dec);
            (r.Ok? <==> Decodes(c, data, dec)) && (r.Ok? ==> CommandOf(r.value) == c)
  {
  }

  /** A message comes only from the tag of its own command, and a name outside the
      table is rejected with the unknown-command error. */
  lemma DispatchOnlyKnownNames(cmd: seq<byte>, data: seq<byte>, dec: Decoders)
    ensures var r := Dispatch(cmd, data, dec);
            r.Ok? ==> cmd == (Name(CommandOf(r.value)))
    ensures (forall c :: cmd != Name(c)) ==> Dispatch(cmd, data, dec) == Err(UNKNOWN_COMMAND)
  {
    if forall c :: cmd != Name(c) {
      assert cmd != Name(AddrCmd) && cmd != Name(BlockCmd) && cmd != Name(InvCmd);
      assert cmd != Name(GetBlocksCmd) && cmd != Name(GetDataCmd);
      assert cmd != Name(TxCmd) && cmd != Name(VersionCmd);
    }
  }

  /** Stripping works piece by piece. */
  lemma {:induction false} StripNulAppend(a: seq<byte>, b: seq<byte>)
    ensures StripNul(a + b) == StripNul(a) + StripNul(b)
    decreases |b|
  {
    if b == [] {
      assert a + b == a;
    } else {
      var n := |b| - 1;
      assert (a + b)[..|a + b| - 1] == a + b[..n];
      StripNulAppend(a, b[..n]);
    }
  }

  /** Stripping leaves no zero byte and keeps every other byte as often as it occurs. */
  lemma {:induction false} StripNulDropsOnlyZeros(s: seq<byte>)
    ensures 0 !in StripNul(s)
    ensures forall x :: x != 0 ==> multiset(StripNul(s))[x] == multiset(s)[x]
  {
    if s != [] {
      var n := |s| - 1;
      StripNulDropsOnlyZeros(s[..n]);
      assert s == s[..n] + [s[n]];
    }
  }

  /** A name without zero bytes is left as it is. */
  lemma {:induction false} StripNulKeepsName(s: seq<byte>)
    requires forall i :: 0 <= i < |s| ==> s[i] != 0
    ensures StripNul(s) == s
  {
    if s != [] {
      var n := |s| - 1;
      var init := s[..n];
      assert forall i :: 0 <= i < |init| ==> init[i] == s[i];
      StripNulKeepsName(init);
      assert init + [s[n]] == s;
    }
  }

  /** Zero padding after a name without zero bytes is undone by stripping. */
  lemma {:induction false} StripNulUnpads(name: seq<byte>, k: nat)
    requires forall i :: 0 <= i < |name| ==> name[i] != 0
    ensures StripNul(name + seq(k, _ => 0 as byte)) == name
  {
    var padded := name + seq(k, _ => 0 as byte);
    if k == 0 {
      assert padded == name;
      StripNulKeepsName(name);
    } else {
      var shorter := name + seq(k - 1, _ => 0 as byte);
      assert padded[..|padded| - 1] == shorter;
      assert padded[|padded| - 1] == 0;
      StripNulUnpads(name, k - 1);
    }
  }

  /** The tag of `c` strips back to `c`'s name. */
  lemma TagStripsToName(c: Command)
    ensures StripNul(Tag(c)) == Name(c)
  {
    StripNulUnpads(Name(c), CMD_LEN - |Name(c)|);
  }

  /** Round trip of the framing: a frame made of `c`'s tag and any payload is decoded by
      `c`'s payload decoder alone, into a message of command `c` holding that decoder's
      value, or into that decoder's error. */
  lemma FramedMessageDecodes(c: Command, payload: seq<byte>, dec: Decoders)
    ensures var frame := Tag(c) + payload;
            var r := Dispatch(StripNul(frame[..CMD_LEN]), frame[CMD_LEN..], dec);
            r == Decoded(c, payload, dec) &&
            (r.Ok? <==> Decodes(c, payload, dec)) && (r.Ok? ==> CommandOf(r.value) == c)
  {
    var frame := Tag(c) + payload;
    assert frame[..CMD_LEN] == Tag(c);
    assert frame[CMD_LEN..] == payload;
    TagStripsToName(c);
    DispatchSelectsCommand(c, payload, dec);
  }

  // ---------------------------------------------------------------------------
  // Node state.

  datatype ServerInner = ServerInner(
    knownNodes: set<string>,
    utxo: Utxo.UTXOSet,
    blocksInTransit: seq<string>,
    mempool: map<string, Transactions.Transaction>)

  /** The node. The source shares `inner` behind a mutex; here it is a plain value. */
  datatype Server = Server(nodeAddress: string, miningAddress: string, inner: ServerInner)

  /** `Server::new`: the only known peer is the bootstrap node, nothing is in transit or
      in the mempool, and the node address is "localhost" followed directly by `port`. */
  method NewServer(port: string, minerAddress: string, utxo: Utxo.UTXOSet) returns (r: Result<Server>)
    ensures r.Ok?
    ensures r.value.inner.knownNodes == {KNOWN_NODE1}
    ensures r.value.inner.blocksInTransit == [] && r.value.inner.mempool == map[]
    ensures r.value.inner.utxo == utxo
    ensures |r.value.nodeAddress| == |"localhost"| + |port|
    ensures r.value.nodeAddress[..|"localhost"|] == "localhost" && r.value.nodeAddress[|"localhost"|..] == port
    ensures r.value.miningAddress == minerAddress
  {
    var nodeSet: set<string> := {};
    nodeSet := nodeSet + {KNOWN_NODE1};
    var inner := ServerInner(nodeSet, utxo, [], map[]);
    r := Ok(Server("localhost" + port, minerAddress, inner));
  }
}
