/** The scanner's limits and alphabet in the bytes of the stream: what may stand between key and object, how long
    an object may be, and which braces count. */
module UsageLimits {
  import opened UsageScanner
  import opened Wrappers

  const KEY := "\"usage\":"

  lemma KeyIsSeen()
    ensures Seen(KEY) && forall n :: 0 <= n < |KEY| ==> !Seen(KEY[..n])
  {
    EndsMeans(KEY, 8);
    assert KEY == PATTERN && PATTERN[..8] == PATTERN && PATTERN[0..] == PATTERN && PATTERN[..0] == "";
    NoKeyWithoutColon(KEY[..7]);
    assert forall n :: 0 <= n < 8 ==> KEY[..n] == KEY[..7][..n];
  }

  /** The braces that are not inside a text balance at the end of `obj`, and not before. */
  predicate Object(obj: string) {
    obj != "" && obj[0] == '{' && Depth(obj) == 0 && forall n :: 0 < n < |obj| ==> Depth(obj[..n]) > 0
  }

  lemma {:induction false} OpenPrefix(x: string)
    requires forall n :: 0 < n <= |x| ==> Depth(x[..n]) > 0
    ensures Open(x)
  {
    if x != "" {
      var before := x[..|x| - 1];
      assert x[..|x|] == x;
      forall n | 0 < n <= |before| ensures Depth(before[..n]) > 0 {
        assert before[..n] == x[..n];
      }
      OpenPrefix(before);
    }
  }

  /** An object behind the key is captured whole if it has at most 65536 bytes, and given up otherwise, whatever
      stands behind it; spaces, tabs and line ends before it do not matter. */
  lemma ObjectIsCaptured(blanks: string, obj: string, rest: string)
    requires Object(obj) && forall b :: b in blanks ==> b in " \t\n\r"
    ensures FeedAll(START, KEY + (blanks + (obj + rest))).captured == if |obj| <= 65_536 then Some(obj) else None
  {
    KeyIsSeen();
    var x, last := obj[..|obj| - 1], obj[|obj| - 1];
    assert x + [last] == obj;
    forall n | 0 < n <= |x| ensures Depth(x[..n]) > 0 {
      assert x[..n] == obj[..n];
    }
    OpenPrefix(x);
    var stream := KEY + (blanks + (obj + rest));
    assert Joined([stream]) == stream by {
      assert [stream][1..] == [] && Joined([]) == "";
      assert stream + "" == stream;
    }
    UsageIsCaptured(KEY, blanks, x, last, rest, [stream]);
    ChunkingIsIrrelevant(START, [stream]);
  }

  /** Anything else before the object, other than a brace, hides it. */
  lemma OnlyBlanksMaySeparate(b: char)
    requires b != '{'
    ensures FeedAll(START, KEY + ([b] + "{}")).captured == if b in " \t\n\r" then Some("{}") else None
  {
    if b in " \t\n\r" {
      TextStep("", '{');
      TextStep("{", '}');
      assert "" + ['{'] == "{" && "{" + ['}'] == "{}" && "{}"[..1] == "{";
      ObjectIsCaptured([b], "{}", "");
      assert [b] + ("{}" + "") == [b] + "{}";
    } else {
      KeyIsSeen();
      KeyWithoutObject(KEY, "", b, "{}");
      assert KEY + ("" + ([b] + "{}")) == KEY + ([b] + "{}");
      NoKeyWithoutColon("{}");
      SearchState("{}");
    }
  }

  // ----- texts and braces -----

  /** A quote opens or closes a text, except that one behind an odd number of backslashes does not close; braces
      count outside of texts. */
  lemma TextStep(t: string, b: char)
    ensures Depth("") == 0 && !InString("")
    ensures Depth(t + [b]) == Depth(t) + (if InString(t) then 0 else if b == '{' then 1 else if b == '}' then -1 else 0)
    ensures b != '"' ==> InString(t + [b]) == InString(t)
    ensures b == '"' ==> InString(t + [b]) == (!InString(t) || OddBackslashes(t))
  {
    assert (t + [b])[..|t|] == t;
  }

  /** `n` backslashes stand at the end of t. */
  predicate EndsInBackslashes(t: string, n: nat) {
    n <= |t| && (forall i :: |t| - n <= i < |t| ==> t[i] == '\\') && (n < |t| ==> t[|t| - n - 1] != '\\')
  }

  lemma {:induction false} OddBackslashesMeans(t: string, n: nat)
    requires EndsInBackslashes(t, n)
    ensures OddBackslashes(t) <==> n % 2 == 1
  {
    if n > 0 {
      OddBackslashesMeans(t[..|t| - 1], n - 1);
    }
  }
}
