/** I2C framing of the SSD1306 text driver. Every bus transaction goes to the
    controller's address; a command frame is the command control byte followed
    by one command byte, a data frame is the data control byte followed by up to
    16 bytes of display RAM. The bus is an opaque sink: a function returns the
    transactions it would issue, and bus errors are ignored as in the driver. */
module Ssd1306Bus {
  import opened Ints

  /** The controller's 7-bit I2C address. */
  const I2C_ADDR: u8 := 0x3C
  /** Control byte announcing that the next byte is a command. */
  const CONTROL_COMMAND: u8 := 0x00
  /** Control byte announcing display RAM data. */
  const CONTROL_DATA: u8 := 0x40
  /** The most RAM bytes one data frame carries. */
  const CHUNK: nat := 16

  /** One bus transaction: the device address and its write operations, in order. */
  datatype Transaction = Transaction(address: u8, writes: seq<seq<u8>>)

  predicate IsCommandFrame(t: Transaction) {
    t.address == I2C_ADDR && |t.writes| == 2 && t.writes[0] == [CONTROL_COMMAND] && |t.writes[1]| == 1
  }

  predicate IsDataFrame(t: Transaction) {
    t.address == I2C_ADDR && |t.writes| == 2 && t.writes[0] == [CONTROL_DATA]
  }

  /** The command bytes carried by the command frames of a trace, in order. */
  function Commands(frames: seq<Transaction>): seq<u8> {
    if |frames| == 0 then []
    else (if IsCommandFrame(frames[0]) then frames[0].writes[1] else []) + Commands(frames[1..])
  }

  /** The display RAM bytes carried by the data frames of a trace, in order. */
  function DataBytes(frames: seq<Transaction>): seq<u8> {
    if |frames| == 0 then []
    else (if IsDataFrame(frames[0]) then frames[0].writes[1] else []) + DataBytes(frames[1..])
  }

  /** The number of data frames in a trace. */
  function DataFrameCount(frames: seq<Transaction>): nat {
    if |frames| == 0 then 0
    else (if IsDataFrame(frames[0]) then 1 else 0) + DataFrameCount(frames[1..])
  }

  lemma {:induction false} CommandsAppend(a: seq<Transaction>, b: seq<Transaction>)
    ensures Commands(a + b) == Commands(a) + Commands(b)
    decreases |a|
  {
    if |a| == 0 {
      assert a + b == b;
    } else {
      assert (a + b)[1..] == a[1..] + b;
      CommandsAppend(a[1..], b);
    }
  }

  lemma {:induction false} DataBytesAppend(a: seq<Transaction>, b: seq<Transaction>)
    ensures DataBytes(a + b) == DataBytes(a) + DataBytes(b)
    ensures DataFrameCount(a + b) == DataFrameCount(a) + DataFrameCount(b)
    decreases |a|
  {
    if |a| == 0 {
      assert a + b == b;
    } else {
      assert (a + b)[1..] == a[1..] + b;
      DataBytesAppend(a[1..], b);
    }
  }

  /** `write_cmd`: one transaction carrying exactly the given command and no RAM data. */
  function WriteCmd(cmd: u8): (r: seq<Transaction>)
    ensures |r| == 1 && IsCommandFrame(r[0])
    ensures Commands(r) == [cmd]
    ensures DataBytes(r) == [] && DataFrameCount(r) == 0
  {
    [Transaction(I2C_ADDR, [[CONTROL_COMMAND], [cmd]])]
  }

  /** `write_ram_buf`: the bytes split into chunks of 16 (the last one possibly
      shorter), one data frame per chunk. There are ceil(n/16) frames, every
      chunk is non-empty, all but the last are full, and the chunks concatenate
      back to the input. */
  function WriteRamBuf(bytes: seq<u8>): (r: seq<Transaction>)
    ensures |r| == (|bytes| + CHUNK - 1) / CHUNK
    ensures forall i :: 0 <= i < |r| ==> IsDataFrame(r[i]) && 1 <= |r[i].writes[1]| <= CHUNK
    ensures forall i :: 0 <= i < |r| - 1 ==> |r[i].writes| == 2 && |r[i].writes[1]| == CHUNK
    ensures DataBytes(r) == bytes
    ensures DataFrameCount(r) == |r|
    ensures Commands(r) == []
    decreases |bytes|
  {
    if |bytes| == 0 then []
    else
      var n := if |bytes| < CHUNK then |bytes| else CHUNK;
      var first := [Transaction(I2C_ADDR, [[CONTROL_DATA], bytes[..n]])];
      var rest := WriteRamBuf(bytes[n..]);
      DataBytesAppend(first, rest);
      CommandsAppend(first, rest);
      assert bytes[..n] + bytes[n..] == bytes;
      first + rest
  }
}
