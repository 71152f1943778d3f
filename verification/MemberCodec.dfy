/** Request identifiers (newReqID) and the "<id>:<tokens>" members of the token sorted set. */
module MemberCodec {
  import opened Values

  predicate IsDigit(c: char) {
    '0' <= c <= '9'
  }

  predicate AllDigits(s: string) {
    forall i :: 0 <= i < |s| ==> IsDigit(s[i])
  }

  /** Decimal rendering of a natural number: the "%d" verb. */
  function Dec(n: nat): (s: string)
    ensures s != [] && AllDigits(s)
  {
    if n < 10 then [(n + 48) as char] else Dec(n / 10) + [(n % 10 + 48) as char]
  }

  function DecInt(n: int): string {
    if n < 0 then "-" + Dec(-n) else Dec(n)
  }

  /** The number a string of digits stands for. */
  function Num(s: string): nat
    requires AllDigits(s)
  {
    if s == [] then 0 else Num(s[..|s| - 1]) * 10 + (s[|s| - 1] as int - 48)
  }

  lemma {:induction false} NumDec(n: nat)
    ensures Num(Dec(n)) == n
  {
    var s := Dec(n);
    if n < 10 {
      assert s[..0] == [];
    } else {
      NumDec(n / 10);
      assert s[..|s| - 1] == Dec(n / 10);
    }
  }

  lemma DecInjective(i: nat, j: nat)
    requires Dec(i) == Dec(j)
    ensures i == j
  {
    NumDec(i);
    NumDec(j);
  }

  /** Lua's tonumber on the suffixes that tpm_record.lua writes: decimal digits or nothing. */
  function ToNumber(s: string): Option<nat> {
    if s != [] && AllDigits(s) then Some(Num(s)) else None
  }

  /** The index of the last c in m, or -1. */
  function LastIndex(m: string, c: char): (k: int)
    ensures -1 <= k < |m|
    ensures k >= 0 ==> m[k] == c
    ensures forall i :: k < i < |m| ==> m[i] != c
  {
    if m == [] then -1
    else if m[|m| - 1] == c then |m| - 1
    else LastIndex(m[..|m| - 1], c)
  }

  /** The index of the first c in m, or |m|. */
  function FirstIndex(m: string, c: char): (k: nat)
    ensures k <= |m|
    ensures k < |m| ==> m[k] == c
    ensures forall i :: 0 <= i < k ==> m[i] != c
  {
    if m == [] || m[0] == c then 0 else FirstIndex(m[1..], c) + 1
  }

  /** The tokens that check.lua reads out of one member; unreadable members add nothing. */
  function TokensOf(m: string): nat {
    var c := LastIndex(m, ':'); // string.find(m, ':[^:]*$')
    if c < 0 then 0
    else match ToNumber(m[c + 1..])
      case None => 0
      case Some(n) => n
  }

  function Member(id: string, tokens: nat): string {
    id + ":" + Dec(tokens)
  }

  lemma {:induction false} LastIndexAt(x: string, c: char, y: string)
    requires c !in y
    ensures LastIndex(x + [c] + y, c) == |x|
  {
    var s := x + [c] + y;
    if y == [] {
      assert s[|s| - 1] == c;
    } else {
      var n := |y| - 1;
      assert s[|s| - 1] == y[n];
      assert s[..|s| - 1] == x + [c] + y[..n];
      LastIndexAt(x, c, y[..n]);
    }
  }

  lemma FirstIndexAt(x: string, c: char, y: string)
    requires c !in x
    ensures FirstIndex(x + [c] + y, c) == |x|
  {
    var s := x + [c] + y;
    assert s[|x|] == c;
    assert forall i :: 0 <= i < |x| ==> s[i] == x[i];
  }

  /** Cutting a string at position |x| gives back the parts it was made of. */
  lemma Parts(x: string, c: char, y: string)
    ensures (x + [c] + y)[..|x|] == x && (x + [c] + y)[|x| + 1..] == y
  {
  }

  /** Parsing after the last colon recovers the token count, whatever the identifier holds. */
  lemma MemberRoundTrip(id: string, tokens: nat)
    ensures TokensOf(Member(id, tokens)) == tokens
  {
    LastIndexAt(id, ':', Dec(tokens));
    Parts(id, ':', Dec(tokens));
    NumDec(tokens);
  }

  /** A member with no colon, or with anything but digits after its last one, counts for nothing. */
  lemma UnreadableAddsNothing(m: string)
    ensures ':' !in m ==> TokensOf(m) == 0
    ensures forall id, tail ::
              m == id + ":" + tail && ':' !in tail && (tail == "" || !AllDigits(tail)) ==> TokensOf(m) == 0
  {
    forall id, tail | m == id + ":" + tail && ':' !in tail && (tail == "" || !AllDigits(tail))
      ensures TokensOf(m) == 0
    {
      LastIndexAt(id, ':', tail);
      Parts(id, ':', tail);
    }
  }

  lemma MemberInjective(id: string, n: nat, id': string, n': nat)
    requires Member(id, n) == Member(id', n')
    ensures id == id' && n == n'
  {
    LastIndexAt(id, ':', Dec(n));
    LastIndexAt(id', ':', Dec(n'));
    Parts(id, ':', Dec(n));
    Parts(id', ':', Dec(n'));
    NumDec(n);
    NumDec(n');
  }

  /** The identifier of the n-th request of one gateway process. */
  function ReqID(instance: string, nowMs: int, n: nat): string {
    instance + "-" + DecInt(nowMs) + "-" + Dec(n)
  }

  /** Identifiers of two processes, or of two counter values of one process, never coincide.
      Instance prefixes are hexadecimal or base 36, so they hold no dash. */
  lemma ReqIDInjective(p: string, t: int, n: nat, p': string, t': int, n': nat)
    requires '-' !in p && '-' !in p'
    requires ReqID(p, t, n) == ReqID(p', t', n')
    ensures p == p' && n == n'
  {
    var id := ReqID(p, t, n);
    SplitID(p, t, n, id);
    SplitID(p', t', n', id);
  }

  /** The prefix is what stands before the first dash, the counter what stands after the last. */
  lemma SplitID(p: string, t: int, n: nat, id: string)
    requires '-' !in p
    requires id == ReqID(p, t, n)
    ensures id[..FirstIndex(id, '-')] == p
    ensures ToNumber(id[LastIndex(id, '-') + 1..]) == Some(n)
  {
    var head, tail := p + "-" + DecInt(t), DecInt(t) + "-" + Dec(n);
    assert id == head + ['-'] + Dec(n) == p + ['-'] + tail;
    LastIndexAt(head, '-', Dec(n));
    Parts(head, '-', Dec(n));
    FirstIndexAt(p, '-', tail);
    Parts(p, '-', tail);
    NumDec(n);
  }
}
