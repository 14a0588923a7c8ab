/** Event ids of the outbox: "<txid>:<index>" for deposits (depositEventID in
    internal/scanner/scanner.go, splitEventID in internal/api/util.go) next to
    "withdraw:<order_no>". */
module EventIds {
  import opened Wrappers
  import opened Amount

  const MAX_INT64: int := 0x7fff_ffff_ffff_ffff

  function DepositEventId(txid: string, index: nat): (r: string)
  {
    txid + ":" + NatString(index)
  }

  /** strings.Split on one character: always at least one part. */
  function Split(s: string, sep: char): (parts: seq<string>)
    ensures |parts| >= 1
  {
    if s == "" then [""]
    else
      var rest := Split(s[1..], sep);
      if s[0] == sep then [""] + rest else [[s[0]] + rest[0]] + rest[1..]
  }

  /** strconv.Atoi: a decimal integer that fits 64 bits. */
  function Atoi(s: string): (r: Option<int>)
  {
    var n := ParseInt(s);
    if n.Some? && -MAX_INT64 - 1 <= n.value <= MAX_INT64 then n else None
  }

  function SplitEventId(eventId: string): (r: Result<(string, int)>)
  {
    var parts := Split(eventId, ':');
    if |parts| != 2 then Err("event_id must look like <txid>:<event_index>")
    else
      var index := Atoi(parts[1]);
      if index.None? then Err("invalid event index") else Ok((parts[0], index.value))
  }

  lemma {:induction false} SplitWhole(s: string, sep: char)
    ensures sep !in s ==> Split(s, sep) == [s]
    ensures sep in s ==> |Split(s, sep)| >= 2
  {
    if s != "" {
      SplitWhole(s[1..], sep);
      assert s == [s[0]] + s[1..];
    }
  }

  lemma SplitCons(c: char, s: string, sep: char)
    ensures var rest := Split(s, sep);
      Split([c] + s, sep) == if c == sep then [""] + rest else [[c] + rest[0]] + rest[1..]
  {
    assert ([c] + s)[1..] == s;
  }

  lemma {:induction false} SplitAt(a: string, sep: char, b: string)
    ensures Split(a + [sep] + b, sep) == Split(a, sep) + Split(b, sep)
  {
    hide Split;
    if a == "" {
      assert a + [sep] + b == [sep] + b;
      SplitCons(sep, b, sep);
      SplitEmpty(sep);
    } else {
      var c, rest := a[0], a[1..];
      SplitAt(rest, sep, b);
      assert a == [c] + rest && a + [sep] + b == [c] + (rest + [sep] + b);
      SplitCons(c, rest + [sep] + b, sep);
      SplitCons(c, rest, sep);
      Regroup(c, Split(rest, sep), Split(b, sep));
    }
  }

  lemma SplitEmpty(sep: char)
    ensures Split("", sep) == [""]
  {
  }

  lemma Regroup(c: char, ra: seq<string>, rb: seq<string>)
    requires |ra| >= 1
    ensures [""] + (ra + rb) == ([""] + ra) + rb
    ensures [[c] + (ra + rb)[0]] + (ra + rb)[1..] == ([[c] + ra[0]] + ra[1..]) + rb
  {
  }

  lemma DigitsHaveNoColon(s: string)
    requires AllDigits(s)
    ensures ':' !in s
  {
  }

  /** Splitting gives back the id's parts exactly when the txid has no colon and the
      index fits; any other id built this way is refused. */
  lemma {:induction false} SplitOfEventId(txid: string, index: nat)
    ensures SplitEventId(DepositEventId(txid, index)) == Ok((txid, index)) <==> ':' !in txid && index <= MAX_INT64
    ensures SplitEventId(DepositEventId(txid, index)).Ok? <==> ':' !in txid && index <= MAX_INT64
  {
    hide NatString, AllDigits, ParseInt;
    var n := NatString(index);
    NatStringValue(index);
    DigitsHaveNoColon(n);
    ParseIntString(index);
    NonNegativeString(index);
    assert DepositEventId(txid, index) == txid + [':'] + n;
    SplitAt(txid, ':', n);
    SplitWhole(txid, ':');
    SplitWhole(n, ':');
  }

  lemma NonNegativeString(n: nat)
    ensures IntString(n) == NatString(n)
  {
    hide NatString;
  }

  /** No two deposits share an event id, whatever their txids contain. */
  lemma {:induction false} EventIdInjective(txid: string, index: nat, txid': string, index': nat)
    requires DepositEventId(txid, index) == DepositEventId(txid', index')
    ensures txid == txid' && index == index'
  {
    hide NatString, AllDigits, Nat10;
    var n, n' := NatString(index), NatString(index');
    NatStringValue(index);
    NatStringValue(index');
    DigitsHaveNoColon(n);
    DigitsHaveNoColon(n');
    LastColon(txid, n, txid', n');
  }

  lemma {:induction false} LastColon(a: string, b: string, a': string, b': string)
    requires a + ":" + b == a' + ":" + b' && ':' !in b && ':' !in b'
    ensures a == a' && b == b'
  {
    var s := a + ":" + b;
    assert s[|a|] == ':' && s[|a'|] == ':';
    assert forall j :: |a| < j < |s| ==> s[j] == b[j - |a| - 1];
    assert forall j :: |a'| < j < |s| ==> s[j] == b'[j - |a'| - 1];
    assert s[..|a|] == a && s[..|a'|] == a' && s[|a| + 1..] == b && s[|a'| + 1..] == b';
  }

  /** A deposit id can be mistaken for a withdrawal's exactly when its txid is, or
      begins like, "withdraw:"; hexadecimal txids never are. */
  lemma {:induction false} CollidesWithWithdrawal(txid: string, index: nat)
    ensures (exists orderNo :: DepositEventId(txid, index) == "withdraw:" + orderNo) <==> "withdraw:" <= txid + ":"
  {
    hide NatString;
    var id := DepositEventId(txid, index);
    var n := NatString(index);
    assert id == (txid + ":") + n;
    if "withdraw:" <= txid + ":" {
      assert id == "withdraw:" + id[9..];
    }
    if orderNo :| id == "withdraw:" + orderNo {
      NatStringValue(index);
      DigitsHaveNoColon(n);
      assert id[8] == ':';
      assert forall j :: |txid| < j < |id| ==> id[j] == n[j - |txid| - 1];
    }
  }
}
