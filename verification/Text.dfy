/** The few Python string operations the model relies on. */
module Text {
  /** str.isspace for one character. */
  predicate IsSpace(c: char) {
    var n := c as int;
    || 9 <= n <= 13 || 28 <= n <= 32 || n == 0x85 || n == 0xA0 || n == 0x1680
    || 0x2000 <= n <= 0x200A || n == 0x2028 || n == 0x2029 || n == 0x202F || n == 0x205F || n == 0x3000
  }

  function LStrip(s: string): string {
    if s != "" && IsSpace(s[0]) then LStrip(s[1..]) else s
  }

  function RStrip(s: string): string {
    if s != "" && IsSpace(s[|s| - 1]) then RStrip(s[..|s| - 1]) else s
  }

  function Strip(s: string): string {
    RStrip(LStrip(s))
  }

  /** No white space at either end. */
  predicate Trimmed(s: string) {
    s != "" ==> !IsSpace(s[0]) && !IsSpace(s[|s| - 1])
  }

  lemma {:induction false} LStripHead(s: string)
    ensures LStrip(s) != "" ==> !IsSpace(LStrip(s)[0])
  {
    if s != "" && IsSpace(s[0]) { LStripHead(s[1..]); }
  }

  lemma {:induction false} RStripEnds(s: string)
    ensures RStrip(s) <= s
    ensures RStrip(s) != "" ==> !IsSpace(RStrip(s)[|RStrip(s)| - 1])
  {
    if s != "" && IsSpace(s[|s| - 1]) { RStripEnds(s[..|s| - 1]); }
  }

  lemma StripTrims(s: string)
    ensures Trimmed(Strip(s))
  {
    LStripHead(s);
    RStripEnds(LStrip(s));
  }

  ghost predicate AllSpace(s: string) {
    forall i :: 0 <= i < |s| ==> IsSpace(s[i])
  }

  lemma {:induction false} LStripCuts(s: string) returns (cut: string)
    ensures s == cut + LStrip(s) && AllSpace(cut)
  {
    cut := "";
    if s != "" && IsSpace(s[0]) {
      cut := LStripCuts(s[1..]);
      cut := [s[0]] + cut;
      assert s == [s[0]] + s[1..];
    }
  }

  lemma {:induction false} RStripCuts(s: string) returns (cut: string)
    ensures s == RStrip(s) + cut && AllSpace(cut)
  {
    cut := "";
    if s != "" && IsSpace(s[|s| - 1]) {
      cut := RStripCuts(s[..|s| - 1]);
      cut := cut + [s[|s| - 1]];
      assert s == s[..|s| - 1] + [s[|s| - 1]];
    }
  }

  /** Stripping cuts white space off both ends, all of it and nothing else. */
  lemma StripExactly(s: string) returns (front: string, back: string)
    ensures s == front + Strip(s) + back && AllSpace(front) && AllSpace(back) && Trimmed(Strip(s))
  {
    front := LStripCuts(s);
    back := RStripCuts(LStrip(s));
    StripTrims(s);
  }

  lemma TrimmedIsFixed(s: string)
    requires Trimmed(s)
    ensures Strip(s) == s
  {
  }

  /** s.split("\n", 1)[0] */
  function FirstLine(s: string): string {
    if s == "" || s[0] == '\n' then "" else [s[0]] + FirstLine(s[1..])
  }

  /** sep.join(parts) */
  function Join(sep: string, parts: seq<string>): string {
    if parts == [] then ""
    else if |parts| == 1 then parts[0]
    else parts[0] + sep + Join(sep, parts[1..])
  }

  /** str(n) */
  function Decimal(n: int): string
    decreases if n < 0 then 1 else 0, if n < 0 then -n else n
  {
    if n < 0 then "-" + Decimal(-n)
    else if n < 10 then ["0123456789"[n]]
    else Decimal(n / 10) + ["0123456789"[n % 10]]
  }

  lemma {:induction false} FirstLineOfJoin(head: string, tail: string)
    ensures FirstLine(head + "\n" + tail) == FirstLine(head)
  {
    if head == "" {
      assert head + "\n" + tail == "\n" + tail;
    } else {
      assert (head + "\n" + tail)[1..] == head[1..] + "\n" + tail;
      FirstLineOfJoin(head[1..], tail);
    }
  }

  /** Joining trimmed non-empty pieces gives a trimmed text that starts with the first piece. */
  lemma {:induction false} JoinTrimmed(sep: string, parts: seq<string>)
    requires parts != [] && forall i :: 0 <= i < |parts| ==> parts[i] != "" && Trimmed(parts[i])
    ensures Trimmed(Join(sep, parts)) && parts[0] <= Join(sep, parts)
  {
    if |parts| > 1 {
      JoinTrimmed(sep, parts[1..]);
    }
  }

  /** What a run of decimal digits denotes. */
  function ValueOf(digits: string): int {
    if digits == "" then 0 else ValueOf(digits[..|digits| - 1]) * 10 + (digits[|digits| - 1] as int - '0' as int)
  }

  lemma {:induction false} DecimalDenotes(n: nat)
    ensures ValueOf(Decimal(n)) == n
  {
    if n < 10 {
      assert Decimal(n)[..0] == "";
    } else {
      DecimalDenotes(n / 10);
      assert Decimal(n)[..|Decimal(n)| - 1] == Decimal(n / 10);
    }
  }

  lemma {:induction false} ZerosDoNotCount(digits: string)
    ensures ValueOf("0" + digits) == ValueOf(digits)
  {
    if digits == "" {
      assert ("0" + digits)[..0] == "";
    } else {
      var n := |digits| - 1;
      assert ("0" + digits)[..n + 1] == "0" + digits[..n];
      ZerosDoNotCount(digits[..n]);
    }
  }
}
