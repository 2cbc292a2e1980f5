/**
  Output sent in pieces: the stdout of an exec session, the log stream of a container, and the
  batches of the informer stores.
 */
module ChunkedOutput {
  import opened Sequences

  const EXEC_BUFFER := 1024
  const LOG_BUFFER := 2000

  /** What one `Read` returns: some bytes, and possibly an error along with them. */
  datatype Read = Read(bytes: string, err: bool)

  /** The reads a loop makes: up to and including the first error. */
  function Made(rs: seq<Read>): seq<Read> {
    if rs == [] then [] else if rs[0].err then [rs[0]] else [rs[0]] + Made(rs[1..])
  }

  function BytesOf(rs: seq<Read>): string {
    if rs == [] then "" else rs[0].bytes + BytesOf(rs[1..])
  }

  lemma {:induction false} BytesConcat(a: seq<Read>, b: seq<Read>)
    ensures BytesOf(a + b) == BytesOf(a) + BytesOf(b)
  {
    if a == [] {
      assert a + b == b;
    } else {
      assert (a + b)[1..] == a[1..] + b;
      BytesConcat(a[1..], b);
    }
  }

  lemma {:induction false} MadeUpTo(rs: seq<Read>, i: nat)
    requires i < |rs| && (forall j :: 0 <= j < i ==> !rs[j].err)
    ensures rs[i].err || i + 1 == |rs| ==> Made(rs) == rs[..i + 1]
  {
    if i == 0 {
      assert rs[..1] == [rs[0]];
    } else {
      MadeUpTo(rs[1..], i - 1);
      assert rs[..i + 1] == [rs[0]] + rs[1..][..i];
    }
  }

  /** Copies `bytes` to the front of the buffer; the rest keeps whatever was there. */
  method Fill(data: array<char>, bytes: string)
    requires |bytes| <= data.Length
    modifies data
    ensures data[..|bytes|] == bytes
  {
    for i := 0 to |bytes|
      invariant data[..i] == bytes[..i]
    {
      data[i] := bytes[i];
    }
  }

  lemma BytesSnoc(rs: seq<Read>, i: nat)
    requires i < |rs|
    ensures BytesOf(rs[..i + 1]) == BytesOf(rs[..i]) + rs[i].bytes
  {
    BytesConcat(rs[..i], [rs[i]]);
    assert rs[..i + 1] == rs[..i] + [rs[i]];
    assert BytesOf([rs[i]]) == rs[i].bytes + BytesOf([]);
  }

  /** Chunks of bytes, none empty and none longer than the buffer. */
  predicate Chunks(published: seq<string>, buffer: nat) {
    forall i :: 0 <= i < |published| ==> 1 <= |published[i]| <= buffer
  }

  /** What was published is what was read so far. */
  ghost predicate Sent(published: seq<string>, buffer: nat, rs: seq<Read>) {
    Flatten(published) == BytesOf(rs) && Chunks(published, buffer)
  }

  lemma SendOne(published: seq<string>, buffer: nat, rs: seq<Read>, i: nat)
    requires i < |rs| && |rs[i].bytes| <= buffer && Sent(published, buffer, rs[..i])
    ensures
      var bytes := rs[i].bytes;
      Sent(if bytes == "" then published else published + [bytes], buffer, rs[..i + 1])
  {
    BytesSnoc(rs, i);
    FlattenSnoc(published, rs[i].bytes);
  }

  /**
    The stdout loop of an exec session. One buffer serves every read; a publish copies the bytes
    read. Bytes that come with an error are published before the loop ends.
   */
  method StreamStdout(rs: seq<Read>) returns (published: seq<string>)
    requires forall i :: 0 <= i < |rs| ==> |rs[i].bytes| <= EXEC_BUFFER
    ensures Flatten(published) == BytesOf(Made(rs))
    ensures Chunks(published, EXEC_BUFFER)
  {
    published := [];
    var data := new char[EXEC_BUFFER];
    for i := 0 to |rs|
      invariant Sent(published, EXEC_BUFFER, rs[..i])
      invariant forall j :: 0 <= j < i ==> !rs[j].err
      invariant i == |rs| ==> Made(rs) == rs[..i]
    {
      Fill(data, rs[i].bytes);
      var n := |rs[i].bytes|;
      SendOne(published, EXEC_BUFFER, rs, i);
      MadeUpTo(rs, i);
      if n > 0 {
        published := published + [data[..n]];
      }
      if rs[i].err {
        return;
      }
    }
  }

  /** The reads before the first error. */
  function Clean(rs: seq<Read>): seq<Read> {
    if rs == [] || rs[0].err then [] else [rs[0]] + Clean(rs[1..])
  }

  lemma {:induction false} CleanUpTo(rs: seq<Read>, i: nat)
    requires i <= |rs| && (forall j :: 0 <= j < i ==> !rs[j].err)
    ensures i == |rs| || rs[i].err ==> Clean(rs) == rs[..i]
  {
    if i == 0 {
    } else {
      CleanUpTo(rs[1..], i - 1);
      assert rs[..i] == [rs[0]] + rs[1..][..i - 1];
    }
  }

  /** One read into a fresh buffer; the copy published from it. */
  method ReadFresh(bytes: string) returns (message: string)
    requires |bytes| <= LOG_BUFFER
    ensures message == bytes
  {
    var buf := new char[LOG_BUFFER];
    Fill(buf, bytes);
    var numBytes := |bytes|;
    message := buf[..numBytes];
  }

  /** The log loop, with a fresh buffer for each read: it leaves on any error before looking at the bytes. */
  method StreamLogs(rs: seq<Read>) returns (published: seq<string>)
    requires forall i :: 0 <= i < |rs| ==> |rs[i].bytes| <= LOG_BUFFER
    ensures Flatten(published) == BytesOf(Clean(rs))
    ensures Chunks(published, LOG_BUFFER)
  {
    published := [];
    var i := 0;
    while i < |rs|
      invariant 0 <= i <= |rs|
      invariant Sent(published, LOG_BUFFER, rs[..i])
      invariant forall j :: 0 <= j < i ==> !rs[j].err
    {
      var message := ReadFresh(rs[i].bytes);
      if rs[i].err {
        break;
      }
      SendOne(published, LOG_BUFFER, rs, i);
      if |message| != 0 {
        published := published + [message];
      }
      i := i + 1;
    }
    CleanUpTo(rs, i);
  }

  /** The log loop publishes everything it read exactly when no bytes came together with the error. */
  lemma {:induction false} LogsCompleteExactlyWhen(rs: seq<Read>)
    ensures BytesOf(Clean(rs)) == BytesOf(Made(rs)) <==>
      forall i :: 0 <= i < |Made(rs)| && Made(rs)[i].err ==> Made(rs)[i].bytes == ""
  {
    if rs == [] {
    } else if rs[0].err {
      assert BytesOf(Made(rs)) == rs[0].bytes + BytesOf([]);
    } else {
      LogsCompleteExactlyWhen(rs[1..]);
      var made, rest := Made(rs), Made(rs[1..]);
      assert made[1..] == rest;
      assert forall i :: 0 <= i < |rest| ==> made[i + 1] == rest[i];
      var b, c := BytesOf(Clean(rs[1..])), BytesOf(rest);
      assert Clean(rs)[1..] == Clean(rs[1..]);
      assert (rs[0].bytes + b)[|rs[0].bytes|..] == b && (rs[0].bytes + c)[|rs[0].bytes|..] == c;
    }
  }

  /** Batches of `maxItems`, the last one possibly shorter. */
  method SplitIntoMultipleSlices<T>(s: seq<T>, maxItems: nat) returns (result: seq<seq<T>>)
    requires maxItems > 0
    ensures Flatten(result) == s
    ensures forall i :: 0 <= i < |result| ==> 1 <= |result[i]| <= maxItems
    ensures forall i :: 0 <= i < |result| - 1 ==> |result[i]| == maxItems
  {
    result := [];
    var temp: seq<T> := [];
    for idx := 0 to |s|
      invariant if idx < |s| then Flatten(result) + temp == s[..idx] else Flatten(result) == s
      invariant forall i :: 0 <= i < |result| ==> 1 <= |result[i]| <= maxItems
      invariant idx < |s| ==> |temp| == idx % maxItems && forall i :: 0 <= i < |result| ==> |result[i]| == maxItems
      invariant forall i :: 0 <= i < |result| - 1 ==> |result[i]| == maxItems
    {
      temp := temp + [s[idx]];
      assert s[..idx + 1] == s[..idx] + [s[idx]];
      NextRemainder(idx, maxItems);
      if (idx + 1) % maxItems == 0 {
        FlattenSnoc(result, temp);
        result := result + [temp];
        temp := [];
      }
      if idx + 1 == |s| {
        if |temp| != 0 {
          FlattenSnoc(result, temp);
          result := result + [temp];
          assert s[..|s|] == s;
        }
      }
    }
  }

  lemma NextRemainder(k: nat, m: nat)
    requires m > 0
    ensures (k + 1) % m == if k % m + 1 == m then 0 else k % m + 1
  {
    var q, r := (k + 1) / m, (k + 1) % m;
    var q' := k / m;
    if k % m + 1 == m {
      RemainderIsUnique(m, q, r, q' + 1, 0);
    } else {
      RemainderIsUnique(m, q, r, q', k % m + 1);
    }
  }

  lemma MultipleOf(d: int, m: nat)
    ensures d >= 1 ==> d * m >= m
    ensures d <= -1 ==> d * m + m <= 0
  {
    if d >= 1 {
      assert d * m == (d - 1) * m + m && (d - 1) * m >= 0;
    } else if d <= -1 {
      assert d * m == (d + 1) * m - m && (d + 1) * m <= 0;
    }
  }

  lemma RemainderIsUnique(m: nat, q: int, r: int, q': int, r': int)
    requires 0 <= r < m && 0 <= r' < m && q * m + r == q' * m + r'
    ensures r == r'
  {
    assert (q - q') * m == r' - r;
    MultipleOf(q - q', m);
  }
}
