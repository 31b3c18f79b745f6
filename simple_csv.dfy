/** The CSV shape rule of recoverCSV under an unquoted codec: a record is its
    fields joined by the delimiter, and the writer ends it with a line break.
    For such a codec the rule's promise can be stated outright: a repaired line
    reads back with exactly the configured number of fields. */
module SimpleCsv {
  import opened Common
  import opened Delimited
  import opened Repair

  /** A CSV codec without quoting, for delimiter d. */
  function Unquoted(d: byte): CsvCodec {
    CsvCodec(line => Some(SplitOn(line, d)), r => JoinWith(r, d) + [NL])
  }

  /** A CSV repair policy over that codec. */
  function CsvPolicy(d: byte, fields: seq<FieldRule>, fieldCount: nat): Policy {
    Policy(Csv, fields, fieldCount, Unquoted(d))
  }

  /** The reshaped record never gains a delimiter: it holds the read fields and empty ones. */
  lemma ShapeFree(record: seq<Bytes>, n: nat, d: byte)
    requires forall i :: 0 <= i < |record| ==> d !in record[i]
    ensures forall i :: 0 <= i < n ==> d !in Shape(record, n)[i]
  {
  }

  /** A line recoverCSV keeps reads back as exactly fieldCount fields: the
      read fields cut to that width or padded with empty ones. */
  lemma {:induction false} RecoveredWidth(d: byte, fields: seq<FieldRule>, fieldCount: nat, line: Bytes)
    requires fieldCount >= 1
    ensures var p := CsvPolicy(d, fields, fieldCount);
            SplitOn(RecoverCsvSpec(p, line), d) == Shape(SplitOn(line, d), fieldCount)
  {
    var p := CsvPolicy(d, fields, fieldCount);
    var record := SplitOn(line, d);
    assert p.csv.read(line) == Some(record);
    if |record| != fieldCount {
      var shaped := Shape(record, fieldCount);
      ShapeFree(record, fieldCount, d);
      var w := p.csv.write(shaped);
      assert w == JoinWith(shaped, d) + [NL];
      assert StripTerminator(w) == JoinWith(shaped, d);
      SplitJoin(shaped, d);
    } else {
      assert Shape(record, fieldCount) == record;
    }
  }

  /** recoverCSV is idempotent: a repaired line is repaired to itself. */
  lemma {:induction false} RecoverIdempotent(d: byte, fields: seq<FieldRule>, fieldCount: nat, line: Bytes)
    requires fieldCount >= 1
    ensures var p := CsvPolicy(d, fields, fieldCount);
            RecoverCsvSpec(p, RecoverCsvSpec(p, line)) == RecoverCsvSpec(p, line)
  {
    var p := CsvPolicy(d, fields, fieldCount);
    var out := RecoverCsvSpec(p, line);
    RecoveredWidth(d, fields, fieldCount, line);
    assert p.csv.read(out) == Some(SplitOn(out, d));
    assert |SplitOn(out, d)| == fieldCount;
  }

  /** Under such a CSV policy, every record the reader keeps has exactly
      fieldCount fields, whatever the replacer did to the line. */
  lemma KeptRecordWidth(d: byte, fields: seq<FieldRule>, fieldCount: nat,
                        replacer: Option<Bytes -> Bytes>, valid: Bytes -> bool, token: Bytes)
    requires fieldCount >= 1
    ensures var r := RepairLine(Rule(Some(CsvPolicy(d, fields, fieldCount)), replacer), valid, token);
            |r| > 0 ==> |SplitOn(r, d)| == fieldCount
  {
    var p := CsvPolicy(d, fields, fieldCount);
    var rule := Rule(Some(p), replacer);
    var data := Replaced(rule, token);
    CsvLines(rule, valid, token);
    if |data| > 0 {
      RecoveredWidth(d, fields, fieldCount, data);
      assert RepairLine(rule, valid, token) == RecoverCsvSpec(p, data);
    }
  }
}
