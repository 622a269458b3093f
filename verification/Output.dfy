/** The output file: records of token length, token, result length, result (src/protocol.c:302-396), and its reader
    (examples/word_count/main.c:81-110). */
module Output {
  import opened Collections
  import opened Wire

  /** The file form of a record; the wire form has both lengths first. */
  function FileRecord(r: Record): seq<Byte>
  {
    Size(|r.token|) + r.token + Size(|r.payload|) + r.payload
  }

  function FileOf(rs: seq<Record>): seq<Byte>
  {
    if rs == [] then [] else FileOf(rs[..|rs| - 1]) + FileRecord(rs[|rs| - 1])
  }

  /** The first record of a file and what follows it; None where a read would come up short. */
  function ReadRecord(f: seq<Byte>): (r: Option<(Record, seq<Byte>)>)
    ensures r.Some? ==> |r.value.1| < |f|
  {
    if |f| < 8 then None
    else
      var n := FromSize(f[..8]);
      if |f| < 8 + n + 8 then None
      else
        var m := FromSize(f[8 + n..8 + n + 8]);
        if |f| < 8 + n + 8 + m then None
        else Some((Record(UpToNul(f[8..8 + n]), f[8 + n + 8..8 + n + 8 + m]), f[8 + n + 8 + m..]))
  }

  /** All the records of a file. */
  function Decoded(f: seq<Byte>): seq<Record>
    decreases |f|
  {
    match ReadRecord(f)
    case None => []
    case Some((r, rest)) => [r] + Decoded(rest)
  }

  lemma ReadRecordRoundTrip(r: Record, rest: seq<Byte>)
    ensures ReadRecord(FileRecord(r) + rest) == Some((r, rest))
  {
    var f := FileRecord(r) + rest;
    var n := |r.token|;
    assert f[..8] == Size(n);
    SizeRoundTrip(n);
    assert f[8 + n..8 + n + 8] == Size(|r.payload|);
    SizeRoundTrip(|r.payload|);
    hide Size, FromSize, UpToNul;
    assert f[8..8 + n] == r.token;
    assert f[8 + n + 8..8 + n + 8 + |r.payload|] == r.payload;
    assert f[8 + n + 8 + |r.payload|..] == rest;
  }

  lemma DecodedStep(r: Record, rest: seq<Byte>)
    ensures Decoded(FileRecord(r) + rest) == [r] + Decoded(rest)
  {
    ReadRecordRoundTrip(r, rest);
    hide FileRecord, ReadRecord;
  }

  lemma {:induction false} DecodedAppend(rs: seq<Record>, rest: seq<Byte>)
    ensures Decoded(FileOf(rs) + rest) == rs + Decoded(rest)
    decreases |rs|
  {
    hide FileRecord, Decoded;
    if rs == [] {
      assert FileOf(rs) + rest == rest;
    } else {
      var init, last := rs[..|rs| - 1], rs[|rs| - 1];
      DecodedAppend(init, FileRecord(last) + rest);
      DecodedStep(last, rest);
      Assoc(FileOf(init), FileRecord(last), rest);
      Assoc(init, [last], Decoded(rest));
      assert rs == init + [last];
    }
  }

  /** The file format is unambiguous: reading back what was written gives the very same records. */
  lemma FileRoundTrip(rs: seq<Record>)
    ensures Decoded(FileOf(rs)) == rs
  {
    DecodedAppend(rs, []);
    assert FileOf(rs) + [] == FileOf(rs) && rs + [] == rs && Decoded([]) == [];
  }

  /** The records among the units of a stream. */
  ghost function RecordsIn(us: seq<Unit>): seq<Record>
  {
    if us == [] then []
    else RecordsIn(us[..|us| - 1]) + if us[|us| - 1].Rec? then [us[|us| - 1].rec] else []
  }

  lemma RecordsInSnoc(us: seq<Unit>, u: Unit)
    ensures RecordsIn(us + [u]) == RecordsIn(us) + if u.Rec? then [u.rec] else []
  {
    assert (us + [u])[..|us|] == us;
  }

  lemma FileOfSnoc(rs: seq<Record>, r: Record)
    ensures FileOf(rs + [r]) == FileOf(rs) + FileRecord(r)
  {
    assert (rs + [r])[..|rs|] == rs;
  }
}
