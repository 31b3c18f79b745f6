/** What the recovering reader does to one scanned line, and what it emits for a
    run of lines (config/recover/reader.go). The library pieces the source calls
    (the find/replace replacer, json.Valid, the CSV reader and writer, the field
    adjusters) are function values handed in with the rule. */
module Repair {
  import opened Common
  import opened Delimited

  /** The record format of a repair policy. */
  datatype Format = NoFormat | Json | Csv

  /** A field rule: its name, its CSV column (if any) and its adjusters. */
  datatype FieldRule = FieldRule(
    name: Bytes,
    position: Option<nat>,
    adjustText: Bytes -> Bytes,
    adjustValue: Bytes -> Bytes)

  /** encoding/csv configured with the policy's delimiter: reading one record
      (None on a parse error) and writing one record, terminator included. */
  datatype CsvCodec = CsvCodec(read: Bytes -> Option<seq<Bytes>>, write: seq<Bytes> -> Bytes)

  /** config.Recover: the repair policy. */
  datatype Policy = Policy(format: Format, fields: seq<FieldRule>, fieldCount: nat, csv: CsvCodec)

  /** What the reader is built from: the optional policy and the optional replacer. */
  datatype Rule = Rule(recover: Option<Policy>, replacer: Option<Bytes -> Bytes>)

  /** The bytes json.Marshal produces for an empty map: "{}". */
  const EmptyObject: Bytes := [123, 125]

  predicate IsJson(p: Option<Policy>) {
    p.Some? && p.value.format == Json
  }

  predicate IsCsv(p: Option<Policy>) {
    p.Some? && p.value.format == Csv
  }

  /** The scanned line after the optional find/replace pass. */
  function Replaced(rule: Rule, token: Bytes): Bytes {
    match rule.replacer
    case None => token
    case Some(replace) => replace(token)
  }

  /** k empty fields. */
  function Pad(k: nat): seq<Bytes> {
    seq(k, _ => [])
  }

  /** The CSV shape rule: cut the record to n fields, or pad it with empty fields up to n. */
  function Shape(record: seq<Bytes>, n: nat): (r: seq<Bytes>)
    ensures |r| == n
    ensures forall i :: 0 <= i < n ==> r[i] == if i < |record| then record[i] else []
  {
    if |record| > n then record[..n] else record + Pad(n - |record|)
  }

  /** s without its last byte (the record terminator the CSV writer adds). */
  function StripTerminator(s: Bytes): Bytes {
    if |s| == 0 then s else s[..|s| - 1]
  }

  /** recoverCSV: drop on a parse error, keep an exact-width record as it is,
      otherwise re-serialise the reshaped record without its terminator. */
  function RecoverCsvSpec(p: Policy, data: Bytes): (r: Bytes)
    ensures p.csv.read(data).None? ==> r == []
    ensures p.csv.read(data).Some? && |p.csv.read(data).value| == p.fieldCount ==> r == data
    ensures p.csv.read(data).Some? && |p.csv.read(data).value| != p.fieldCount ==>
              var w := p.csv.write(Shape(p.csv.read(data).value, p.fieldCount));
              (|w| == 0 ==> r == []) && (|w| > 0 ==> r + [w[|w| - 1]] == w)
  {
    match p.csv.read(data)
    case None => []
    case Some(record) =>
      if |record| == p.fieldCount then data
      else StripTerminator(p.csv.write(Shape(record, p.fieldCount)))
  }

  /** One field rule applied to a CSV record: its column, when present, gets the text adjuster. */
  function ApplyRule(record: seq<Bytes>, f: FieldRule): seq<Bytes> {
    match f.position
    case None => record
    case Some(i) => if i < |record| then record[i := f.adjustText(record[i])] else record
  }

  /** adjustCSVDataType: the field rules applied in order. */
  function Adjusted(record: seq<Bytes>, fields: seq<FieldRule>): (r: seq<Bytes>)
    ensures |r| == |record|
    decreases |fields|
  {
    if |fields| == 0 then record
    else ApplyRule(Adjusted(record, fields[..|fields| - 1]), fields[|fields| - 1])
  }

  /** A column no rule names keeps its text. */
  lemma {:induction false} AdjustedUntargeted(record: seq<Bytes>, fields: seq<FieldRule>, i: nat)
    requires i < |record|
    requires forall k :: 0 <= k < |fields| ==> fields[k].position != Some(i)
    ensures Adjusted(record, fields)[i] == record[i]
    decreases |fields|
  {
    if |fields| > 0 {
      AdjustedUntargeted(record, fields[..|fields| - 1], i);
    }
  }

  /** transform's repair of one scanned line; the empty result means "dropped". */
  function RepairLine(rule: Rule, valid: Bytes -> bool, token: Bytes): (r: Bytes)
    ensures |r| > 0 ==> |Replaced(rule, token)| > 0
    ensures rule.recover.None? ==> r == Replaced(rule, token)
  {
    var data := Replaced(rule, token);
    if |data| == 0 then []
    else if IsJson(rule.recover) && !valid(data) then []
    else
      var repaired := if IsCsv(rule.recover) then RecoverCsvSpec(rule.recover.value, data) else data;
      // json.Unmarshal is handed the map by value, so it fills nothing; the
      // field loop finds no key and the line re-marshals to "{}".
      if IsJson(rule.recover) && |rule.recover.value.fields| > 0 then EmptyObject else repaired
  }

  /** A repaired line is kept when it is not empty. */
  function Keep(r: Bytes): seq<Bytes> {
    if |r| == 0 then [] else [r]
  }

  /** The kept records of the first k scanned lines, in order, for the per-line repair f. */
  function KeptOf(f: Bytes -> Bytes, tokens: seq<Bytes>, k: nat): seq<Bytes>
    requires k <= |tokens|
  {
    if k == 0 then [] else KeptOf(f, tokens, k - 1) + Keep(f(tokens[k - 1]))
  }

  /** At most one record per scanned line, and none of them empty. */
  lemma {:induction false} KeptOfShape(f: Bytes -> Bytes, tokens: seq<Bytes>, k: nat)
    requires k <= |tokens|
    ensures var ks := KeptOf(f, tokens, k);
            |ks| <= k && forall i :: 0 <= i < |ks| ==> |ks[i]| > 0
  {
    if k > 0 {
      KeptOfShape(f, tokens, k - 1);
    }
  }

  /** The separator written before the record kept after i others: the source
      writes it when its int32 count is positive. */
  function Separator(i: nat): Bytes {
    if Count32(i) > 0 then [NL] else []
  }

  /** What the reader's buffer receives for one repaired line, i records having been kept before it. */
  function Piece(i: nat, r: Bytes): Bytes {
    if |r| == 0 then [] else Separator(i) + r
  }

  /** Everything the reader writes to its buffer for the kept records ks. */
  function Emit(ks: seq<Bytes>): Bytes
    decreases |ks|
  {
    if |ks| == 0 then []
    else Emit(ks[..|ks| - 1]) + (Separator(|ks| - 1) + ks[|ks| - 1])
  }

  /** Keeping r after the records ks adds exactly r's piece to the output. */
  lemma EmitSnoc(ks: seq<Bytes>, r: Bytes)
    ensures Emit(ks + Keep(r)) == Emit(ks) + Piece(|ks|, r)
  {
    if |r| > 0 {
      assert (ks + [r])[..|ks|] == ks;
    } else {
      assert ks + Keep(r) == ks;
    }
  }

  /** What the reader has written to its buffer, and its int32 record count. */
  datatype Accum = Accum(out: Bytes, count: int)

  /** transform's write for one repaired line r: nothing when r is empty, and
      otherwise a line break when the count is positive, then r; the count
      goes up by one (in int32). */
  function Absorb(a: Accum, r: Bytes): Accum
    requires IsInt32(a.count)
  {
    if |r| == 0 then a
    else Accum(a.out + ((if a.count > 0 then [NL] else []) + r), Inc32(a.count))
  }

  /** The reader's buffer and count after transform has run on the first k lines. */
  function Run(f: Bytes -> Bytes, tokens: seq<Bytes>, k: nat): (a: Accum)
    requires k <= |tokens|
    ensures IsInt32(a.count)
  {
    if k == 0 then Accum([], 0) else Absorb(Run(f, tokens, k - 1), f(tokens[k - 1]))
  }

  /** The step-by-step writes produce the kept records' output, and the counter
      is the int32 count of kept records. */
  lemma {:induction false} RunIsEmit(f: Bytes -> Bytes, tokens: seq<Bytes>, k: nat)
    requires k <= |tokens|
    ensures Run(f, tokens, k) == Accum(Emit(KeptOf(f, tokens, k)), Count32(|KeptOf(f, tokens, k)|))
  {
    if k > 0 {
      var ks, r := KeptOf(f, tokens, k - 1), f(tokens[k - 1]);
      RunIsEmit(f, tokens, k - 1);
      EmitSnoc(ks, r);
      if |r| == 0 {
        assert KeptOf(f, tokens, k) == ks;
      } else {
        assert KeptOf(f, tokens, k) == ks + [r];
        assert Count32(|ks + [r]|) == Inc32(Count32(|ks|));
      }
    }
  }

  /** Below 2^31 records the int32 count never wraps, so the output is the kept
      records joined by single line breaks, with none before the first or after the last. */
  lemma {:induction false} EmitIsJoin(ks: seq<Bytes>)
    requires |ks| <= TwoTo31
    ensures Emit(ks) == JoinWith(ks, NL)
    decreases |ks|
  {
    if |ks| == 1 {
      assert Separator(0) == [];
    } else if |ks| > 1 {
      var front := ks[..|ks| - 1];
      EmitIsJoin(front);
      Count32Exact(|ks| - 1);
      assert Separator(|ks| - 1) == [NL];
      JoinWithSnoc(front, ks[|ks| - 1], NL);
      assert front + [ks[|ks| - 1]] == ks;
    }
  }

  /** After 2^31 increments the int32 count is at its most negative value, so no separator is written. */
  lemma SeparatorAtWrap(n: nat)
    requires n == TwoTo31
    ensures Count32(n) == -TwoTo31 && Separator(n) == []
  {
    Count32Exact(n - 1);
    assert Count32(n) == Inc32(Count32(n - 1));
  }

  /** At 2^31 kept records the int32 count wraps to its most negative value,
      so the next record is written with no line break before it. */
  lemma JoinBreaksAtWrap(ks: seq<Bytes>)
    requires |ks| == TwoTo31 + 1
    ensures Count32(|ks| - 1) == -TwoTo31
    ensures Emit(ks) == Emit(ks[..|ks| - 1]) + ks[|ks| - 1]
  {
    var n := |ks| - 1;
    SeparatorAtWrap(n);
    assert Emit(ks) == Emit(ks[..n]) + (Separator(n) + ks[n]);
  }

  /** Below 2^31 scanned lines, the reader's whole output is its kept records
      joined by line breaks. */
  lemma OutputIsJoin(f: Bytes -> Bytes, tokens: seq<Bytes>, k: nat)
    requires k <= |tokens| && k <= TwoTo31
    ensures Run(f, tokens, k).out == JoinWith(KeptOf(f, tokens, k), NL)
  {
    RunIsEmit(f, tokens, k);
    KeptOfShape(f, tokens, k);
    EmitIsJoin(KeptOf(f, tokens, k));
  }

  /** Splitting the output at line breaks gives back the kept records, when none of them holds a line break. */
  lemma OutputSplitsIntoRecords(ks: seq<Bytes>)
    requires 1 <= |ks| <= TwoTo31
    requires forall i :: 0 <= i < |ks| ==> NL !in ks[i]
    ensures SplitOn(Emit(ks), NL) == ks
  {
    EmitIsJoin(ks);
    SplitJoin(ks, NL);
  }

  /** Under a JSON policy every kept record passed json.Valid and no invalid line is kept. */
  lemma JsonLines(rule: Rule, valid: Bytes -> bool, token: Bytes)
    requires IsJson(rule.recover)
    ensures var data := Replaced(rule, token);
            |RepairLine(rule, valid, token)| > 0 <==> |data| > 0 && valid(data)
    ensures |rule.recover.value.fields| == 0 ==>
              RepairLine(rule, valid, token) == if valid(Replaced(rule, token)) then Replaced(rule, token) else []
    ensures |rule.recover.value.fields| > 0 && |RepairLine(rule, valid, token)| > 0 ==>
              RepairLine(rule, valid, token) == EmptyObject
  {
  }

  /** Under a CSV policy the line goes through recoverCSV; a parse error drops it
      and an exact-width record is kept byte for byte. */
  lemma CsvLines(rule: Rule, valid: Bytes -> bool, token: Bytes)
    requires IsCsv(rule.recover)
    ensures var data := Replaced(rule, token);
            var p := rule.recover.value;
            && RepairLine(rule, valid, token) == (if |data| == 0 then [] else RecoverCsvSpec(p, data))
            && (p.csv.read(data).None? ==> RepairLine(rule, valid, token) == [])
            && (p.csv.read(data).Some? && |p.csv.read(data).value| == p.fieldCount ==>
                  RepairLine(rule, valid, token) == data)
  {
  }
}
