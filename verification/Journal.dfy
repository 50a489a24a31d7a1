/** The journal: length-prefixed records appended to a file, and the file read back. */
module Journal {
  import opened ExchangeTypes
  import opened Wire

  const LENGTH_SIZE: nat := 4
  const MAXIMUM_RECORD_SIZE: nat := 0x10_0000

  function Frame(record: seq<Byte>): seq<Byte> {
    LittleEndian(|record|, LENGTH_SIZE) + record
  }

  // A record the reader accepts: at least a header, at most the maximum.
  predicate Recordable(record: seq<Byte>) {
    HEADER_SIZE <= |record| <= MAXIMUM_RECORD_SIZE
  }

  // The file that appending these records one by one leaves behind.
  function File(records: seq<seq<Byte>>): seq<Byte> {
    if records == [] then [] else Frame(records[0]) + File(records[1..])
  }

  /**
   How the reader takes a file apart: the records it gets to, and whether it stops normally. The
   end of the file, even inside a length, is a normal stop; a wrong length or a record cut short
   is not.
   */
  datatype Reading = Reading(ok: bool, records: seq<seq<Byte>>)

  function Read(file: seq<Byte>): Reading
    decreases |file|
  {
    if |file| < LENGTH_SIZE then Reading(true, [])
    else
      var size := FromLittleEndian(file[..LENGTH_SIZE]);
      if size < HEADER_SIZE || size > MAXIMUM_RECORD_SIZE || |file| - LENGTH_SIZE < size then Reading(false, [])
      else
        var rest := Read(file[LENGTH_SIZE + size..]);
        Reading(rest.ok, [file[LENGTH_SIZE..LENGTH_SIZE + size]] + rest.records)
  }

  // The journal's own object: its bytes are all it has.
  class ExchangeJournal {
    var output: seq<Byte>

    constructor (existing: seq<Byte>)
      ensures output == existing
    {
      output := existing;
    }

    // False where the source throws: the length does not fit its field.
    method Append(message: seq<Byte>) returns (appended: bool)
      modifies this
      ensures appended <==> |message| < QUANTITY_RANGE
      ensures output == if appended then old(output) + Frame(message) else old(output)
    {
      if |message| >= QUANTITY_RANGE {
        return false;
      }
      LittleEndianWidth(|message|, LENGTH_SIZE);
      var encodedLength := EncodeRecordLength(|message|);
      output := output + encodedLength[..];
      if message != [] {
        output := output + message;
      }
      assert old(output) + LittleEndian(|message|, LENGTH_SIZE) + message == old(output) + Frame(message);
      return true;
    }
  }

  // Byte by byte, least significant first.
  method EncodeRecordLength(length: nat) returns (bytes: array<Byte>)
    ensures fresh(bytes) && bytes[..] == LittleEndian(length, LENGTH_SIZE)
  {
    bytes := new Byte[LENGTH_SIZE](_ => 0);
    var shifted := length;
    hide LittleEndian;
    assert bytes[..0] == [] && [] + LittleEndian(length, LENGTH_SIZE) == LittleEndian(length, LENGTH_SIZE);
    for index := 0 to LENGTH_SIZE
      invariant bytes[..index] + LittleEndian(shifted, LENGTH_SIZE - index) == LittleEndian(length, LENGTH_SIZE)
    {
      OneByteWritten(bytes[..index], shifted, LENGTH_SIZE - index);
      bytes[index] := shifted % 256;
      assert bytes[..index + 1] == bytes[..index] + [shifted % 256];
      shifted := shifted / 256;
    }
    NothingWritten(bytes[..LENGTH_SIZE], shifted);
    assert bytes[..] == bytes[..LENGTH_SIZE];
  }

  // ---- Laws -----------------------------------------------------------------------------------

  // Nothing left over: the file ends at a record boundary.
  predicate Whole(file: seq<Byte>) {
    Read(file).ok && File(Read(file).records) == file
  }

  lemma {:induction false} ReadFrame(record: seq<Byte>, rest: seq<Byte>)
    requires Recordable(record)
    ensures Read(Frame(record) + rest) == Reading(Read(rest).ok, [record] + Read(rest).records)
  {
    Ranges();
    LittleEndianWidth(|record|, LENGTH_SIZE);
    ReadWhatWasWritten(|record|, LENGTH_SIZE);
    var file := Frame(record) + rest;
    assert file[..LENGTH_SIZE] == LittleEndian(|record|, LENGTH_SIZE);
    assert file[LENGTH_SIZE..LENGTH_SIZE + |record|] == record;
    assert file[LENGTH_SIZE + |record|..] == rest;
  }

  ghost predicate AllRecordable(records: seq<seq<Byte>>) {
    forall i :: 0 <= i < |records| ==> Recordable(records[i])
  }

  // Round trip, one way: what was appended is read back.
  lemma {:induction false} ReadFile(records: seq<seq<Byte>>)
    requires AllRecordable(records)
    ensures Read(File(records)) == Reading(true, records)
  {
    if records != [] {
      ReadFile(records[1..]);
      ReadFrame(records[0], File(records[1..]));
    }
  }

  // Round trip, the other way: what is read was appended, up to a torn length at the end.
  lemma {:induction false} FileOfReading(file: seq<Byte>)
    requires Read(file).ok
    ensures AllRecordable(Read(file).records)
    ensures var whole := File(Read(file).records);
      |whole| <= |file| < |whole| + LENGTH_SIZE && file[..|whole|] == whole
    decreases |file|
  {
    hide Read, Frame;
    if |file| < LENGTH_SIZE {
      ReadNothing(file);
    } else {
      var record, rest := FirstFrame(file);
      FileOfReading(rest);
      var whole := File(Read(rest).records);
      assert ([record] + Read(rest).records)[1..] == Read(rest).records;
      assert file[..|Frame(record)| + |whole|] == Frame(record) + rest[..|whole|];
    }
  }

  lemma ReadNothing(file: seq<Byte>)
    requires |file| < LENGTH_SIZE
    ensures Read(file) == Reading(true, [])
  {
  }

  // The front of a file that reads is a frame.
  lemma {:induction false} FirstFrame(file: seq<Byte>) returns (record: seq<Byte>, rest: seq<Byte>)
    requires Read(file).ok && |file| >= LENGTH_SIZE
    ensures Recordable(record) && file == Frame(record) + rest && |rest| < |file|
    ensures Read(file) == Reading(Read(rest).ok, [record] + Read(rest).records)
  {
    hide FromLittleEndian, LittleEndian;
    var size := FromLittleEndian(file[..LENGTH_SIZE]);
    record, rest := file[LENGTH_SIZE..LENGTH_SIZE + size], file[LENGTH_SIZE + size..];
    WriteWhatWasRead(file[..LENGTH_SIZE]);
    assert file == file[..LENGTH_SIZE] + record + rest;
  }

  lemma {:induction false} FileConcat(xs: seq<seq<Byte>>, ys: seq<seq<Byte>>)
    ensures File(xs + ys) == File(xs) + File(ys)
  {
    if xs == [] {
      assert xs + ys == ys;
    } else {
      assert (xs + ys)[1..] == xs[1..] + ys;
      FileConcat(xs[1..], ys);
    }
  }

  // Appending to a whole file adds exactly one record to what is read.
  lemma {:induction false} ReadAppended(file: seq<Byte>, record: seq<Byte>)
    requires Whole(file) && Recordable(record)
    ensures Whole(file + Frame(record))
    ensures Read(file + Frame(record)).records == Read(file).records + [record]
  {
    var records := Read(file).records;
    FileOfReading(file);
    FileConcat(records, [record]);
    assert File([record]) == Frame(record);
    ReadFile(records + [record]);
  }

  // ---- Torn files -------------------------------------------------------------------------------

  // Behind whole records, reading goes on with what follows them.
  lemma {:induction false} ReadBehind(records: seq<seq<Byte>>, tail: seq<Byte>)
    requires AllRecordable(records)
    ensures Read(File(records) + tail) == Reading(Read(tail).ok, records + Read(tail).records)
  {
    hide Read, Frame;
    if records == [] {
      assert File(records) + tail == tail;
    } else {
      ReadBehind(records[1..], tail);
      ReadFrame(records[0], File(records[1..]) + tail);
      assert File(records) + tail == Frame(records[0]) + (File(records[1..]) + tail);
      assert [records[0]] + (records[1..] + Read(tail).records) == records + Read(tail).records;
    }
  }

  // A length of one byte, as its field holds it.
  lemma SmallLength(length: nat)
    requires length < 256
    ensures LittleEndian(length, LENGTH_SIZE) == [length, 0, 0, 0]
  {
    assert LittleEndian(0, 0) == [];
    assert LittleEndian(0, 1) == [0];
    assert LittleEndian(0, 2) == [0, 0];
    assert LittleEndian(0, 3) == [0, 0, 0];
  }

  lemma FourBytes(bytes: seq<Byte>)
    requires |bytes| == LENGTH_SIZE
    ensures FromLittleEndian(bytes) == (bytes[0] as int) + 0x100 * (bytes[1] as int) + 0x1_0000 * (bytes[2] as int) + 0x100_0000 * (bytes[3] as int)
  {
    assert bytes[1..][1..] == bytes[2..] && bytes[2..][1..] == bytes[3..] && bytes[3..][1..] == [];
    assert FromLittleEndian(bytes[3..]) == bytes[3] as int;
    assert FromLittleEndian(bytes[2..]) == (bytes[2] as int) + 0x100 * (bytes[3] as int);
  }

  // Behind the rest of a length, the next length is read off its place and is far too large.
  lemma {:induction false} TornMisleads(torn: seq<Byte>, record: seq<Byte>)
    requires 0 < |torn| < LENGTH_SIZE && 0 < |record| < 256
    ensures Read(torn + Frame(record)) == Reading(false, [])
  {
    var file := torn + Frame(record);
    SmallLength(|record|);
    assert |file| == |torn| + LENGTH_SIZE + |record|;
    assert file[|torn|] == Frame(record)[0] == |record|;
    FourBytes(file[..LENGTH_SIZE]);
    assert file[..LENGTH_SIZE][|torn|] == |record|;
  }

  /**
   A torn length at the end of a file is a normal end, but only for the time being: one more record of
   the size of a command is read if and only if the file was whole.
   */
  lemma {:induction false} AppendedIsReadExactly(file: seq<Byte>, record: seq<Byte>)
    requires Read(file).ok && Recordable(record) && |record| < 256
    ensures Read(file + Frame(record)).ok <==> Whole(file)
  {
    var records := Read(file).records;
    FileOfReading(file);
    var whole := File(records);
    var torn := file[|whole|..];
    assert file == whole + torn && file + Frame(record) == whole + (torn + Frame(record));
    ReadBehind(records, torn + Frame(record));
    if torn == [] {
      assert file == whole;
      ReadAppended(file, record);
    } else {
      TornMisleads(torn, record);
    }
  }

  /** Such files: whole records with one to three bytes of another length behind them. */
  lemma {:induction false} TornIsAccepted(records: seq<seq<Byte>>, torn: seq<Byte>)
    requires AllRecordable(records) && 0 < |torn| < LENGTH_SIZE
    ensures Read(File(records) + torn) == Reading(true, records) && !Whole(File(records) + torn)
  {
    ReadBehind(records, torn);
    assert Read(torn) == Reading(true, []);
    assert records + [] == records;
  }

  // How many whole records fit in the first bytes of the file.
  function Fitting(records: seq<seq<Byte>>, length: nat): (n: nat)
    ensures n <= |records|
  {
    if records == [] || length < LENGTH_SIZE + |records[0]| then 0
    else 1 + Fitting(records[1..], length - LENGTH_SIZE - |records[0]|)
  }

  /**
   A file cut anywhere reads normally exactly when the cut is at a record boundary or inside a
   length field, and either way the records before the cut are what is read.
   */
  lemma {:induction false} ReadCutFile(records: seq<seq<Byte>>, length: nat)
    requires AllRecordable(records) && length <= |File(records)|
    ensures var n := Fitting(records, length);
      var reading := Read(File(records)[..length]);
      && reading.records == records[..n]
      && |File(records[..n])| <= length
      && (reading.ok <==> length < |File(records[..n])| + LENGTH_SIZE)
  {
    hide Read, Frame;
    if records == [] {
      ReadNothing([]);
      assert File(records)[..length] == [];
    } else {
      var frame := Frame(records[0]);
      FrameSize(records[0]);
      var cut := File(records)[..length];
      if length < |frame| {
        assert cut == frame[..length];
        CutFrame(records[0], length);
      } else {
        var n := Fitting(records[1..], length - |frame|);
        ReadCutFile(records[1..], length - |frame|);
        assert cut == frame + File(records[1..])[..length - |frame|];
        ReadFrame(records[0], File(records[1..])[..length - |frame|]);
        assert records[..n + 1] == [records[0]] + records[1..][..n];
      }
    }
  }

  lemma FrameSize(record: seq<Byte>)
    ensures |Frame(record)| == LENGTH_SIZE + |record|
  {
    LittleEndianWidth(|record|, LENGTH_SIZE);
  }

  // A frame cut short reads as nothing: normally within its length, wrongly behind it.
  lemma {:induction false} CutFrame(record: seq<Byte>, length: nat)
    requires Recordable(record) && length < |Frame(record)|
    ensures Read(Frame(record)[..length]) == Reading(length < LENGTH_SIZE, [])
  {
    hide LittleEndian, FromLittleEndian;
    LittleEndianWidth(|record|, LENGTH_SIZE);
    if length >= LENGTH_SIZE {
      assert |record| < 0x1_0000_0000;
      Ranges();
      ReadWhatWasWritten(|record|, LENGTH_SIZE);
      assert Frame(record)[..length][..LENGTH_SIZE] == LittleEndian(|record|, LENGTH_SIZE);
    }
  }
}
