/**
  The create path reports every validation failure at once: the messages are
  joined with a newline into a single error message. `Split` is the reading
  side, and `SplitJoin` shows that no message is lost or merged as long as
  the messages themselves contain no newline.
 */
module Messages {

  const Newline: char := '\n'

  /** The messages separated by one newline each, as `Array.prototype.join("\n")` does. */
  function Join(ms: seq<string>): (s: string)
    ensures |ms| == 1 ==> s == ms[0]
    ensures |ms| == 0 ==> s == ""
    ensures |ms| >= 2 ==> |s| > |ms[0]| && s[..|ms[0]| + 1] == ms[0] + [Newline]
  {
    if |ms| == 0 then ""
    else if |ms| == 1 then ms[0]
    else ms[0] + [Newline] + Join(ms[1..])
  }

  /** The pieces of `s` between newlines; there is always at least one piece. */
  function Split(s: string): (pieces: seq<string>)
    ensures |pieces| >= 1
    ensures forall i :: 0 <= i < |pieces| ==> Newline !in pieces[i]
  {
    if |s| == 0 then [""]
    else if s[0] == Newline then [""] + Split(s[1..])
    else
      var rest := Split(s[1..]);
      [[s[0]] + rest[0]] + rest[1..]
  }

  /** A piece without a newline, followed by a newline and more text, splits off as the first piece. */
  lemma {:induction false} SplitPrefix(a: string, tail: string)
    requires Newline !in a
    ensures Split(a + [Newline] + tail) == [a] + Split(tail)
    decreases |a|
  {
    if |a| == 0 {
      assert a + [Newline] + tail == [Newline] + tail;
      assert ([Newline] + tail)[1..] == tail;
    } else {
      var s := a + [Newline] + tail;
      assert s[0] == a[0];
      assert s[1..] == a[1..] + [Newline] + tail;
      SplitPrefix(a[1..], tail);
      assert [a[0]] + a[1..] == a;
    }
  }

  /** Text without a newline is a single piece. */
  lemma {:induction false} SplitWhole(a: string)
    requires Newline !in a
    ensures Split(a) == [a]
    decreases |a|
  {
    if |a| > 0 {
      SplitWhole(a[1..]);
      assert [a[0]] + a[1..] == a;
    }
  }

  /** Joining a non-empty list of newline-free messages and splitting the result gives the list back. */
  lemma {:induction false} SplitJoin(ms: seq<string>)
    requires |ms| > 0
    requires forall i :: 0 <= i < |ms| ==> Newline !in ms[i]
    ensures Split(Join(ms)) == ms
    decreases |ms|
  {
    if |ms| == 1 {
      SplitWhole(ms[0]);
    } else {
      SplitPrefix(ms[0], Join(ms[1..]));
      SplitJoin(ms[1..]);
      assert [ms[0]] + ms[1..] == ms;
    }
  }
}
