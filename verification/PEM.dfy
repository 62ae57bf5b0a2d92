/** Reading a bundle: splitPEM of internal/trustbundle/trustbundle.go. */
module PEM {
  import opened Common

  /** The first index of pattern in data. */
  function Index(data: Bytes, pattern: Bytes): Option<nat> {
    if pattern <= data then Some(0)
    else if data == [] then None
    else match Index(data[1..], pattern) case None => None case Some(i) => Some(i + 1)
  }

  lemma {:induction false} IndexIsFirst(data: Bytes, pattern: Bytes)
    ensures match Index(data, pattern)
      case Some(i) =>
        && i + |pattern| <= |data| && data[i..i + |pattern|] == pattern
        && forall k :: 0 <= k < i ==> !(pattern <= data[k..])
      case None => forall k :: 0 <= k <= |data| ==> !(pattern <= data[k..])
  {
    if !(pattern <= data) && data != [] {
      IndexIsFirst(data[1..], pattern);
      forall k | 1 <= k <= |data| ensures data[1..][k - 1..] == data[k..] {}
      match Index(data[1..], pattern)
      case Some(i) => assert data[1..][i..i + |pattern|] == data[i + 1..i + 1 + |pattern|];
      case None =>
    }
  }

  /** The next certificate, from a begin mark to the end mark after it, and what follows. */
  function NextBlock(data: Bytes, begin: Bytes, end: Bytes): (r: Option<(Bytes, Bytes)>)
    ensures r.Some? ==> |r.value.1| + |end| <= |data|
  {
    match Index(data, begin)
    case None => None
    case Some(i) =>
      IndexIsFirst(data, begin);
      match Index(data[i..], end)
      case None => None
      case Some(j) =>
        IndexIsFirst(data[i..], end);
        Some((data[i..i + j + |end|], data[i + j + |end|..]))
  }

  /** The certificates of a bundle. */
  function Blocks(data: Bytes, begin: Bytes, end: Bytes): seq<Bytes>
    requires |end| > 0
    decreases |data|
  {
    match NextBlock(data, begin, end)
    case None => []
    case Some((block, rest)) => [block] + Blocks(rest, begin, end)
  }

  method SplitPEM(bundle: Bytes, begin: Bytes, end: Bytes) returns (blocks: seq<Bytes>)
    requires |end| > 0
    ensures blocks == Blocks(bundle, begin, end)
  {
    var data := bundle;
    blocks := [];
    while true
      invariant Blocks(bundle, begin, end) == blocks + Blocks(data, begin, end)
      decreases |data|
    {
      var found, block, rest := SplitOne(data, begin, end);
      if !found { return; }
      blocks := blocks + [block];
      data := rest;
    }
  }

  /** One round of the loop. */
  method SplitOne(data: Bytes, begin: Bytes, end: Bytes) returns (found: bool, block: Bytes, rest: Bytes)
    ensures NextBlock(data, begin, end) == if found then Some((block, rest)) else None
  {
    found, block, rest := false, [], [];
    var i := Index(data, begin);
    if i.None? { return; }
    IndexIsFirst(data, begin);
    var j := Index(data[i.value..], end);
    if j.None? { return; }
    IndexIsFirst(data[i.value..], end);
    found := true;
    block := data[i.value..i.value + j.value + |end|];
    rest := data[i.value + j.value + |end|..];
  }

  /** A bundle entry: some text, then a certificate between its marks. */
  datatype Entry = Entry(text: Bytes, body: Bytes)

  function Written(entries: seq<Entry>, begin: Bytes, end: Bytes, tail: Bytes): Bytes {
    if entries == [] then tail
    else entries[0].text + begin + entries[0].body + end + Written(entries[1..], begin, end, tail)
  }

  /** No mark shows up before its place, not even across a boundary. */
  ghost predicate Unambiguous(e: Entry, begin: Bytes, end: Bytes) {
    && (forall rest: Bytes :: Index(e.text + begin + rest, begin) == Some(|e.text|))
    && (forall rest: Bytes :: Index(begin + e.body + end + rest, end) == Some(|begin| + |e.body|))
  }

  /** splitPEM gives back exactly the certificates a bundle was written from. */
  lemma {:induction false} SplitWritten(entries: seq<Entry>, begin: Bytes, end: Bytes, tail: Bytes)
    requires |end| > 0 && Index(tail, begin).None?
    requires forall i :: 0 <= i < |entries| ==> Unambiguous(entries[i], begin, end)
    ensures |Blocks(Written(entries, begin, end, tail), begin, end)| == |entries|
    ensures forall i :: 0 <= i < |entries| ==>
      Blocks(Written(entries, begin, end, tail), begin, end)[i] == begin + entries[i].body + end
  {
    if entries != [] {
      FirstBlock(entries[0], begin, end, Written(entries[1..], begin, end, tail));
      SplitWritten(entries[1..], begin, end, tail);
    }
  }

  lemma FirstBlock(e: Entry, begin: Bytes, end: Bytes, rest: Bytes)
    requires Unambiguous(e, begin, end)
    ensures NextBlock(e.text + begin + e.body + end + rest, begin, end) == Some((begin + e.body + end, rest))
  {
    var data := e.text + begin + e.body + end + rest;
    assert data == e.text + begin + (e.body + end + rest);
    assert Index(data, begin) == Some(|e.text|);
    assert data[|e.text|..] == begin + e.body + end + rest;
    assert Index(data[|e.text|..], end) == Some(|begin| + |e.body|);
    var next := |e.text| + |begin| + |e.body| + |end|;
    assert data[|e.text|..next] == begin + e.body + end;
    assert data[next..] == rest;
  }

  // ---------------------------------------------------------------- the marks of PEM

  /** "BEGIN CERTIFICATE" and "END CERTIFICATE". */
  const BEGIN_TEXT: Bytes :=
    [0x42, 0x45, 0x47, 0x49, 0x4E, 0x20, 0x43, 0x45, 0x52, 0x54, 0x49, 0x46, 0x49, 0x43, 0x41, 0x54, 0x45]
  const END_TEXT: Bytes := [0x45, 0x4E, 0x44, 0x20, 0x43, 0x45, 0x52, 0x54, 0x49, 0x46, 0x49, 0x43, 0x41, 0x54, 0x45]

  const BEGIN: Bytes := DASHES + BEGIN_TEXT + DASHES
  const END: Bytes := DASHES + END_TEXT + DASHES

  predicate Dashless(s: Bytes) {
    forall i :: 0 <= i < |s| ==> s[i] != 0x2D
  }

  /** The part of data from k on is s. */
  predicate Holds(data: Bytes, k: nat, s: Bytes) {
    k + |s| <= |data| && data[k..k + |s|] == s
  }

  /** A mark with this text starts at k. */
  predicate MarkAt(data: Bytes, text: Bytes, k: nat) {
    Holds(data, k, DASHES) && Holds(data, k + 5, text) && Holds(data, k + 5 + |text|, DASHES)
  }

  lemma Octet(data: Bytes, k: nat, s: Bytes, j: nat)
    requires Holds(data, k, s) && j < |s|
    ensures data[k + j] == s[j]
  {
    assert data[k..k + |s|][j] == s[j];
  }

  lemma MarkIsPrefix(data: Bytes, text: Bytes, k: nat)
    requires k <= |data|
    ensures MarkAt(data, text, k) <==> DASHES + text + DASHES <= data[k..]
  {
    var mark, n := DASHES + text + DASHES, 10 + |text|;
    if mark <= data[k..] {
      assert data[k..][..n] == mark;
      assert data[k..k + 5] == mark[..5] && data[k + 5..k + 5 + |text|] == mark[5..5 + |text|];
      assert data[k + 5 + |text|..k + n] == mark[5 + |text|..];
    }
    if MarkAt(data, text, k) {
      assert data[k..k + n] == data[k..k + 5] + data[k + 5..k + 5 + |text|] + data[k + 5 + |text|..k + n];
      assert data[k..][..n] == mark;
    }
  }

  lemma FirstMark(data: Bytes, text: Bytes, i: nat)
    requires MarkAt(data, text, i) && forall k :: 0 <= k < i ==> !MarkAt(data, text, k)
    ensures Index(data, DASHES + text + DASHES) == Some(i)
  {
    var mark := DASHES + text + DASHES;
    IndexIsFirst(data, mark);
    MarkIsPrefix(data, text, i);
    var found := Index(data, mark);
    if found.Some? {
      var j := found.value;
      assert data[j..][..|mark|] == data[j..j + |mark|];
      MarkIsPrefix(data, text, j);
    }
  }

  /** Where text, then another mark, then rest put their octets. */
  lemma Laid(text: Bytes, mark: Bytes, rest: Bytes)
    ensures Holds(text + mark + rest, 0, text) && Holds(text + mark + rest, |text|, mark)
  {
  }

  lemma MarkOctet(text: Bytes, j: nat)
    requires j < 10 + |text|
    ensures (DASHES + text + DASHES)[j] == if 5 <= j < 5 + |text| then text[j - 5] else 0x2D
  {
  }

  /** A begin mark's text and a begin mark at n cannot share octets unless the text ends before n. */
  lemma TextBeforeMark(data: Bytes, n: nat, k: nat)
    requires Holds(data, n, BEGIN) && Holds(data, k + 5, BEGIN_TEXT) && k < n
    ensures k + 22 <= n
  {
    if k + 5 >= n {
      Octet(data, k + 5, BEGIN_TEXT, 0);
      Octet(data, n, BEGIN, k + 5 - n);
      MarkOctet(BEGIN_TEXT, k + 5 - n);
    } else if k + 22 > n {
      Octet(data, n, BEGIN, 0);
      MarkOctet(BEGIN_TEXT, 0);
      Octet(data, k + 5, BEGIN_TEXT, n - k - 5);
    }
  }

  lemma MarkCopied(data: Bytes, short: Bytes, text: Bytes, k: nat)
    requires short <= data && k + 10 + |text| <= |short|
    ensures MarkAt(data, text, k) <==> MarkAt(short, text, k)
  {
    assert short == data[..|short|];
    assert short[k..k + 5] == data[k..k + 5];
    assert short[k + 5..k + 5 + |text|] == data[k + 5..k + 5 + |text|];
    assert short[k + 5 + |text|..k + 10 + |text|] == data[k + 5 + |text|..k + 10 + |text|];
  }

  /** A begin mark before the one after the text lies in the text and five dashes. */
  lemma EarlyBegin(text: Bytes, rest: Bytes, k: nat)
    requires k < |text| && MarkAt(text + BEGIN + rest, BEGIN_TEXT, k)
    ensures k + 22 <= |text| && MarkAt(text + DASHES, BEGIN_TEXT, k)
  {
    var data, short := text + BEGIN + rest, text + DASHES;
    Laid(text, BEGIN, rest);
    TextBeforeMark(data, |text|, k);
    ShortIsPrefix(text, rest);
    MarkCopied(data, short, BEGIN_TEXT, k);
  }

  lemma ShortIsPrefix(text: Bytes, rest: Bytes)
    ensures text + DASHES <= text + BEGIN + rest
  {
    assert text + BEGIN + rest == text + DASHES + (BEGIN_TEXT + DASHES + rest);
  }

  /** The begin mark after a text is the first one exactly when the text and five dashes hold none. */
  lemma BeginMarkIff(text: Bytes)
    ensures (forall rest: Bytes :: Index(text + BEGIN + rest, BEGIN) == Some(|text|)) <==>
      Index(text + DASHES, BEGIN).None?
  {
    IndexIsFirst(text + DASHES, BEGIN);
    if Index(text + DASHES, BEGIN).None? {
      forall rest: Bytes ensures Index(text + BEGIN + rest, BEGIN) == Some(|text|) { BeginMarkIsFirst(text, rest); }
    } else {
      LateBegin(text);
    }
  }

  lemma BeginMarkIsFirst(text: Bytes, rest: Bytes)
    requires Index(text + DASHES, BEGIN).None?
    ensures Index(text + BEGIN + rest, BEGIN) == Some(|text|)
  {
    var data := text + BEGIN + rest;
    assert BEGIN <= data[|text|..] by { assert data[|text|..] == BEGIN + rest; }
    MarkIsPrefix(data, BEGIN_TEXT, |text|);
    forall k | 0 <= k < |text| ensures !MarkAt(data, BEGIN_TEXT, k) {
      if MarkAt(data, BEGIN_TEXT, k) {
        EarlyBegin(text, rest, k);
        MarkIsPrefix(text + DASHES, BEGIN_TEXT, k);
        IndexIsFirst(text + DASHES, BEGIN);
      }
    }
    FirstMark(data, BEGIN_TEXT, |text|);
  }

  lemma LateBegin(text: Bytes)
    requires Index(text + DASHES, BEGIN).Some?
    ensures Index(text + BEGIN + [], BEGIN) != Some(|text|)
  {
    var short, data := text + DASHES, text + BEGIN + [];
    var k := FoundMark(short, BEGIN_TEXT);
    ShortIsPrefix(text, []);
    MarkCopied(data, short, BEGIN_TEXT, k);
    MarkIsPrefix(data, BEGIN_TEXT, k);
    IndexIsFirst(data, BEGIN);
  }

  lemma FoundMark(data: Bytes, text: Bytes) returns (k: nat)
    requires Index(data, DASHES + text + DASHES).Some?
    ensures k + 10 + |text| <= |data| && MarkAt(data, text, k)
  {
    var mark := DASHES + text + DASHES;
    IndexIsFirst(data, mark);
    k := Index(data, mark).value;
    assert data[k..][..|mark|] == data[k..k + |mark|];
    MarkIsPrefix(data, text, k);
  }

  /** In a block whose body has no dash, five dashes and an E before the end mark are at the begin mark's end. */
  lemma EarlyEndAt(data: Bytes, body: Bytes, k: nat)
    requires Dashless(body) && k < 27 + |body|
    requires Holds(data, 0, BEGIN) && Holds(data, 27, body) && Holds(data, 27 + |body|, END)
    requires Holds(data, k, DASHES) && Holds(data, k + 5, END_TEXT)
    ensures k == 22
  {
    Octet(data, k, DASHES, 0);
    Octet(data, k, DASHES, 4);
    Octet(data, k + 5, END_TEXT, 0);
    if k < 22 {
      EarlyEndInMark(data, k);
    } else if k >= 27 {
      Octet(data, 27, body, k - 27);
    } else if k > 22 && k + 4 < 27 + |body| {
      Octet(data, 27, body, k - 23);
    } else if k > 22 {
      Octet(data, 27 + |body|, END, k + 5 - 27 - |body|);
      MarkOctet(END_TEXT, k + 5 - 27 - |body|);
    }
  }

  lemma EarlyEndInMark(data: Bytes, k: nat)
    requires Holds(data, 0, BEGIN) && k < 22
    ensures !(data[k] == 0x2D && data[k + 4] == 0x2D && data[k + 5] == 0x45)
  {
    Octet(data, 0, BEGIN, k);
    Octet(data, 0, BEGIN, k + 5);
    MarkOctet(BEGIN_TEXT, k);
    MarkOctet(BEGIN_TEXT, k + 5);
    if k == 1 || k == 2 || k == 3 || k == 4 {
      Octet(data, 0, BEGIN, k + 4);
      MarkOctet(BEGIN_TEXT, k + 4);
    }
  }

  lemma BlockLaid(body: Bytes, rest: Bytes)
    ensures
      var data := BEGIN + body + END + rest;
      Holds(data, 0, BEGIN) && Holds(data, 27, body) && Holds(data, 27 + |body|, END)
  {
    var data := BEGIN + body + END + rest;
    assert data[27..27 + |body|] == body && data[27 + |body|..27 + |body| + 25] == END;
  }

  /** Then the body is the end mark's very text. */
  lemma EarlyEnd(body: Bytes, rest: Bytes, k: nat)
    requires Dashless(body) && k < 27 + |body| && MarkAt(BEGIN + body + END + rest, END_TEXT, k)
    ensures body == END_TEXT
  {
    var data := BEGIN + body + END + rest;
    BlockLaid(body, rest);
    EarlyEndAt(data, body, k);
    if |body| < 15 {
      Octet(data, 27 + |body|, END, 0);
      Octet(data, 27, END_TEXT, |body|);
    } else if |body| > 15 {
      Octet(data, 42, DASHES, 0);
      Octet(data, 27, body, 15);
    }
    assert data[27..42] == END_TEXT;
  }

  /** The end mark of a block whose body has no dash is the first one exactly when the body is not the mark's text. */
  lemma EndMarkIff(body: Bytes)
    requires Dashless(body)
    ensures (forall rest: Bytes :: Index(BEGIN + body + END + rest, END) == Some(|BEGIN| + |body|)) <==>
      body != END_TEXT
  {
    if body != END_TEXT {
      forall rest: Bytes ensures Index(BEGIN + body + END + rest, END) == Some(|BEGIN| + |body|) {
        EndMarkIsFirst(body, rest);
      }
    } else {
      EndTextIsAMark();
    }
  }

  lemma EndMarkIsFirst(body: Bytes, rest: Bytes)
    requires Dashless(body) && body != END_TEXT
    ensures Index(BEGIN + body + END + rest, END) == Some(|BEGIN| + |body|)
  {
    var data := BEGIN + body + END + rest;
    assert END <= data[27 + |body|..] by { assert data[27 + |body|..] == END + rest; }
    MarkIsPrefix(data, END_TEXT, 27 + |body|);
    forall k | 0 <= k < 27 + |body| ensures !MarkAt(data, END_TEXT, k) {
      if MarkAt(data, END_TEXT, k) { EarlyEnd(body, rest, k); }
    }
    FirstMark(data, END_TEXT, 27 + |body|);
  }

  lemma EndTextIsAMark()
    ensures Index(BEGIN + END_TEXT + END + [], END) != Some(|BEGIN| + |END_TEXT|)
  {
    var data := BEGIN + END_TEXT + END + [];
    IndexIsFirst(data, END);
    BlockLaid(END_TEXT, []);
    assert data[22..27] == DASHES by {
      forall j | 0 <= j < 5 ensures data[22..27][j] == 0x2D {
        Octet(data, 0, BEGIN, 22 + j);
        MarkOctet(BEGIN_TEXT, 22 + j);
      }
    }
    assert data[42..47] == DASHES by {
      forall j | 0 <= j < 5 ensures data[42..47][j] == 0x2D {
        Octet(data, 42, END, j);
        MarkOctet(END_TEXT, j);
      }
    }
    MarkIsPrefix(data, END_TEXT, 22);
  }

  /** A bundle entry of PEM: its text starts no mark, its body, base64 and line ends, has no dash. */
  predicate PEMEntry(e: Entry) {
    Index(e.text + DASHES, BEGIN).None? && Dashless(e.body) && e.body != END_TEXT
  }

  /** splitPEM gives back exactly the certificates of a PEM bundle. */
  lemma SplitPEMBundle(entries: seq<Entry>, tail: Bytes)
    requires Index(tail, BEGIN).None? && forall i :: 0 <= i < |entries| ==> PEMEntry(entries[i])
    ensures |Blocks(Written(entries, BEGIN, END, tail), BEGIN, END)| == |entries|
    ensures forall i :: 0 <= i < |entries| ==>
      Blocks(Written(entries, BEGIN, END, tail), BEGIN, END)[i] == BEGIN + entries[i].body + END
  {
    forall i | 0 <= i < |entries| ensures Unambiguous(entries[i], BEGIN, END) {
      BeginMarkIff(entries[i].text);
      EndMarkIff(entries[i].body);
    }
    SplitWritten(entries, BEGIN, END, tail);
  }

  /** A text without a begin mark can still end like one, and then moves the block. */
  lemma TextCanEndLikeAMark()
    ensures
      var text := DASHES + BEGIN_TEXT;
      Index(text, BEGIN).None? && Index(text + BEGIN + [], BEGIN) == Some(0)
  {
    var text := DASHES + BEGIN_TEXT;
    IndexIsFirst(text, BEGIN);
    var data := text + BEGIN + [];
    assert data[..27] == BEGIN;
    assert BEGIN <= data;
  }
}
