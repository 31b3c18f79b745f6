/** The recovering line reader of config/recover/reader.go: it pulls lines
    from a scanner, repairs them, joins the kept ones with line breaks in a
    buffer, and serves that buffer through Read with a two-stage end of stream. */
module Recover {
  import opened Common
  import opened Repair

  /** io.EOF. */
  const EOF: Error := Error("EOF")

  class Reader {
    /** The repair policy and replacer the reader was built from. */
    const rule: Rule
    /** json.Valid. */
    const valid: Bytes -> bool
    /** The lines the scanner yields, in order (a line never holds its '\n'). */
    const lines: seq<Bytes>

    /** How many lines the scanner has handed out. */
    var cursor: nat
    /** count (int32): how many records have been kept. */
    var count: int
    /** The unread content of buf. */
    var buf: Bytes
    /** The scratch buffer for the replacer and the CSV writer. */
    var transient: Bytes
    var pending: int
    var readEOF: bool
    var writeEOF: bool

    /** Every byte Read has handed out so far. */
    ghost var delivered: Bytes
    /** The per-line repair transform applies: RepairLine for this rule. */
    ghost const repair: Bytes -> Bytes

    /** The scanner's tokens: the lines, then the nil token Bytes() gives once Scan reports false. */
    ghost function Tokens(): seq<Bytes> {
      lines + [[]]
    }

    /** How many tokens transform has processed. */
    ghost function Consumed(): nat
      reads this
    {
      cursor + (if readEOF then 1 else 0)
    }

    /** What the buffer has received once the first k tokens are processed. */
    ghost function Produced(k: nat): Bytes
      requires k <= |lines| + 1
    {
      Run(repair, Tokens(), k).out
    }

    /** repair is the reader's per-line repair, RepairLine for its rule. */
    ghost predicate RepairIsRepairLine() {
      forall t {:trigger RepairLine(rule, valid, t)} :: repair(t) == RepairLine(rule, valid, t)
    }

    ghost predicate Valid()
      reads this
    {
      && cursor <= |lines|
      && (readEOF ==> cursor == |lines|)
      && (writeEOF ==> readEOF)
      && transient == []
      && RepairIsRepairLine()
      && pending == |buf|
      && Run(repair, Tokens(), Consumed()) == Accum(delivered + buf, count)
    }

    /** NewReader: nothing scanned, nothing buffered. */
    constructor (lines: seq<Bytes>, rule: Rule, valid: Bytes -> bool)
      ensures Valid()
      ensures this.lines == lines && this.rule == rule && this.valid == valid
      ensures Consumed() == 0 && buf == [] && delivered == []
      ensures count == 0 && pending == 0 && !readEOF && !writeEOF
    {
      this.lines := lines;
      this.rule := rule;
      this.valid := valid;
      repair := t => RepairLine(rule, valid, t);
      cursor := 0;
      count := 0;
      buf := [];
      transient := [];
      pending := 0;
      readEOF := false;
      writeEOF := false;
      delivered := [];
    }

    /** transform: scan one token, repair it, and append it (after a line break
        unless it is the first kept record) when it is kept. It never fails. */
    method Transform() returns (err: Option<Error>)
      requires Valid() && !readEOF
      modifies this
      ensures Valid() && err == None
      ensures Consumed() == old(Consumed()) + 1
      ensures delivered == old(delivered) && writeEOF == old(writeEOF)
    {
      ghost var k := Consumed();
      ghost var buf0, count0 := buf, count;
      var token: Bytes;
      if cursor < |lines| {
        token := lines[cursor];
        cursor := cursor + 1;
      } else {
        readEOF := true;
        token := [];
      }
      assert token == Tokens()[k];
      err := None;
      var data := RepairToken(token);
      if |data| > 0 {
        Append(data);
        assert delivered + buf == (delivered + buf0) + ((if count0 > 0 then [NL] else []) + data);
      }
    }

    /** The tail of transform: a line break unless this is the first kept
        record, then the record; pending and count follow. */
    method Append(data: Bytes)
      requires pending == |buf| && IsInt32(count)
      modifies this`buf, this`pending, this`count
      ensures buf == old(buf) + ((if old(count) > 0 then [NL] else []) + data)
      ensures pending == |buf|
      ensures count == Inc32(old(count))
    {
      if count > 0 {
        buf := buf + [NL];
        pending := pending + 1;
      }
      pending := pending + |data|;
      buf := buf + data;
      count := Inc32(count);
    }

    /** The repair half of transform: the replacer, the JSON validity filter,
        the CSV shape rule and the JSON field step; the empty result means the
        line is dropped. */
    method RepairToken(token: Bytes) returns (data: Bytes)
      requires transient == [] && RepairIsRepairLine()
      modifies this`transient
      ensures transient == []
      ensures data == repair(token)
    {
      assert repair(token) == RepairLine(rule, valid, token);
      data := token;
      if rule.replacer.Some? {
        transient := transient + rule.replacer.value(data);
        data := transient;
        transient := [];
      }
      assert data == Replaced(rule, token);
      if |data| == 0 {
        return;
      }
      if rule.recover.Some? {
        if rule.recover.value.format == Json && !valid(data) {
          return [];
        }
        if rule.recover.value.format == Csv {
          data := RecoverCsv(data);
        }
      }
      if IsJson(rule.recover) && |rule.recover.value.fields| > 0 {
        // json.Unmarshal(data, record) receives the map by value and fills
        // nothing, so the field loop finds no key and json.Marshal of the
        // empty map is what replaces the line.
        data := EmptyObject;
      }
    }

    /** recoverCSV: the CSV shape rule for one line, with the writer's output
        passed through the scratch buffer. */
    method RecoverCsv(data: Bytes) returns (out: Bytes)
      requires rule.recover.Some? && transient == []
      modifies this`transient
      ensures transient == []
      ensures out == RecoverCsvSpec(rule.recover.value, data)
    {
      var policy := rule.recover.value;
      var parsed := policy.csv.read(data);
      if parsed.None? {
        return [];
      }
      var record := parsed.value;
      if |record| == policy.fieldCount {
        // The adjusted fields land in a copy of the record that nothing reads afterwards.
        var cells := new Bytes[|record|](i => if 0 <= i < |record| then record[i] else []);
        AdjustCsvDataType(cells);
        return data;
      }
      if |record| > policy.fieldCount {
        record := record[..policy.fieldCount];
      } else {
        while |record| < policy.fieldCount
          invariant |parsed.value| <= |record| <= policy.fieldCount
          invariant record == parsed.value + Pad(|record| - |parsed.value|)
        {
          record := record + [[]];
        }
      }
      assert record == Shape(parsed.value, policy.fieldCount);
      transient := transient + policy.csv.write(record);
      out := transient;
      transient := [];
      if |out| == 0 {
        return;
      }
      out := out[..|out| - 1];
    }

    /** adjustCSVDataType: each field rule with a position inside the record
        replaces that column by its text adjustment, in rule order. */
    method AdjustCsvDataType(record: array<Bytes>)
      requires rule.recover.Some?
      modifies record
      ensures record[..] == Adjusted(old(record[..]), rule.recover.value.fields)
    {
      var fields := rule.recover.value.fields;
      if |fields| == 0 {
        return;
      }
      var k := 0;
      while k < |fields|
        invariant 0 <= k <= |fields|
        invariant record[..] == Adjusted(old(record[..]), fields[..k])
      {
        var field := fields[k];
        assert fields[..k + 1][..k] == fields[..k];
        if field.position.Some? {
          var index := field.position.value;
          if index < record.Length {
            record[index] := field.adjustText(record[index]);
          }
        }
        k := k + 1;
      }
      assert fields[..k] == fields;
    }

    /** Read: pull lines until p can be filled or the scanner is exhausted, then
        copy out what is buffered. An empty read after exhaustion ends the stream. */
    method Read(p: array<byte>) returns (n: nat, err: Option<Error>)
      requires Valid()
      modifies this, p
      ensures Valid()
      ensures n <= p.Length
      ensures old(writeEOF) ==> n == 0 && err == Some(EOF) && unchanged(this) && unchanged(p)
      ensures !old(writeEOF) ==> old(Consumed()) <= Consumed()
      ensures !old(writeEOF) && old(readEOF) ==> Consumed() == old(Consumed())
      // a line is pulled only while fewer than |p| bytes are pending
      ensures !old(writeEOF) ==>
        forall j :: old(Consumed()) <= j < Consumed() ==> |Produced(j)| < |old(delivered)| + p.Length
      ensures !old(writeEOF) ==> readEOF || |Produced(Consumed())| >= |old(delivered)| + p.Length
      // what is copied out is the next stretch of the output
      ensures !old(writeEOF) ==>
        var avail := |Produced(Consumed())| - |old(delivered)|;
        n == if p.Length < avail then p.Length else avail
      ensures !old(writeEOF) ==>
        && delivered == old(delivered) + p[..n]
        && p[..n] == Produced(Consumed())[|old(delivered)|..|old(delivered)| + n]
        && p[n..] == old(p[n..])
      // the end of the stream is reported once an empty read follows exhaustion
      ensures !old(writeEOF) ==> writeEOF == (readEOF && n == 0)
      ensures !old(writeEOF) ==> err == if readEOF && n == 0 && p.Length > 0 then Some(EOF) else None
      ensures writeEOF && !old(writeEOF) && p.Length > 0 ==> delivered == Produced(|lines| + 1)
    {
      if writeEOF {
        return 0, Some(EOF);
      }
      var want := p.Length;
      Fill(want);
      ghost var produced := Produced(Consumed());
      assert produced == delivered + buf;
      n, err := BufferRead(p);
      if err == Some(EOF) || n == 0 {
        if readEOF {
          writeEOF := true;
        } else {
          err := None;
        }
      }
      pending := pending - n;
    }

    /** Read's loop: run transform while fewer than want bytes are pending and
        the scanner has more. */
    method Fill(want: nat)
      requires Valid() && !writeEOF
      modifies this
      ensures Valid() && !writeEOF
      ensures delivered == old(delivered)
      ensures old(Consumed()) <= Consumed()
      ensures old(readEOF) ==> Consumed() == old(Consumed())
      ensures forall j :: old(Consumed()) <= j < Consumed() ==> |Produced(j)| < |delivered| + want
      ensures readEOF || |Produced(Consumed())| >= |delivered| + want
    {
      while pending < want && !readEOF
        invariant Valid() && !writeEOF
        invariant delivered == old(delivered)
        invariant old(Consumed()) <= Consumed()
        invariant old(readEOF) ==> Consumed() == old(Consumed())
        invariant forall j :: old(Consumed()) <= j < Consumed() ==> |Produced(j)| < |delivered| + want
        decreases |lines| + 1 - Consumed()
      {
        assert |Produced(Consumed())| < |delivered| + want;
        var e := Transform();
        if e.Some? {
          // reader.go returns 0 and the error here; transform never fails
          assert false;
        }
      }
    }

    /** bytes.Buffer.Read: copy out as much of the buffer as fits in p; an empty
        buffer gives io.EOF unless p is empty too. */
    method BufferRead(p: array<byte>) returns (n: nat, err: Option<Error>)
      modifies this`buf, this`delivered, p
      ensures n == if p.Length < |old(buf)| then p.Length else |old(buf)|
      ensures p[..n] == old(buf)[..n] && p[n..] == old(p[n..])
      ensures buf == old(buf)[n..] && delivered == old(delivered) + old(buf)[..n]
      ensures err == if |old(buf)| == 0 && p.Length > 0 then Some(EOF) else None
    {
      n := if p.Length < |buf| then p.Length else |buf|;
      err := if |buf| == 0 && p.Length > 0 then Some(EOF) else None;
      forall i | 0 <= i < n {
        p[i] := buf[i];
      }
      delivered := delivered + buf[..n];
      buf := buf[n..];
    }
  }
}
