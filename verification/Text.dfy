/** The std::string searches the C++ sources are written with. */
module Text {
  import opened Wrappers

  ghost predicate At(s: string, token: string, i: int) {
    0 <= i && i + |token| <= |s| && s[i..i + |token|] == token
  }

  /** `s.find(token, from)`: the least position, from `from` on, where `token` stands. */
  function Find(s: string, token: string, from: nat): (r: Option<nat>)
    ensures r.Some? ==> from <= r.value && r.value + |token| <= |s|
    decreases |s| - from
  {
    if |s| < from + |token| then None
    else if s[from..from + |token|] == token then Some(from)
    else Find(s, token, from + 1)
  }

  /** `s.find_first_of(chars, from)`. */
  function FindFirstOf(s: string, chars: string, from: nat): (r: Option<nat>)
    ensures r.Some? ==> from <= r.value < |s| && s[r.value] in chars
    decreases |s| - from
  {
    if |s| <= from then None else if s[from] in chars then Some(from) else FindFirstOf(s, chars, from + 1)
  }

  /** `s.find_first_not_of(chars, from)`. */
  function FindFirstNotOf(s: string, chars: string, from: nat): (r: Option<nat>)
    ensures r.Some? ==> from <= r.value < |s| && s[r.value] !in chars
    decreases |s| - from
  {
    if |s| <= from then None else if s[from] !in chars then Some(from) else FindFirstNotOf(s, chars, from + 1)
  }

  /** `s.find_last_not_of(chars)`, looking at the first `end` characters. */
  function FindLastNotOf(s: string, chars: string, end: nat): (r: Option<nat>)
    requires end <= |s|
    ensures r.Some? ==> r.value < end && s[r.value] !in chars
  {
    if end == 0 then None else if s[end - 1] !in chars then Some(end - 1) else FindLastNotOf(s, chars, end - 1)
  }

  /** What follows the first occurrence of `token`. */
  function After(s: string, token: string): Option<string> {
    match Find(s, token, 0)
    case None => None
    case Some(p) => Some(s[p + |token|..])
  }

  lemma {:induction false} FindIsLeast(s: string, token: string, from: nat)
    ensures var r := Find(s, token, from);
            match r
            case None => forall j | from <= j :: !At(s, token, j)
            case Some(p) => At(s, token, p) && forall j | from <= j < p :: !At(s, token, j)
    decreases |s| - from
  {
    if from + |token| <= |s| {
      FindIsLeast(s, token, from + 1);
    }
  }

  lemma {:induction false} FindSkip(s: string, token: string, from: nat, n: nat)
    requires forall j | from <= j < from + n :: !At(s, token, j)
    ensures Find(s, token, from) == Find(s, token, from + n)
    decreases n
  {
    if n > 0 {
      assert !At(s, token, from);
      FindSkip(s, token, from + 1, n - 1);
    }
  }

  lemma AtHead(s: string, token: string, i: nat)
    requires token != []
    ensures At(s, token, i) ==> i < |s| && s[i] == token[0]
  {
    assert At(s, token, i) ==> s[i] == s[i..i + |token|][0];
  }

  /** Searching after a prefix is searching the rest. */
  lemma {:induction false} FindShift(a: string, s: string, token: string, i: nat)
    ensures Find(a + s, token, |a| + i) ==
            match Find(s, token, i) case None => None case Some(p) => Some(|a| + p)
    decreases |s| - i
  {
    if i + |token| <= |s| {
      assert (a + s)[|a| + i..|a| + i + |token|] == s[i..i + |token|];
      FindShift(a, s, token, i + 1);
    }
  }

  lemma {:induction false} FindFirstOfShift(a: string, s: string, chars: string, i: nat)
    ensures FindFirstOf(a + s, chars, |a| + i) ==
            match FindFirstOf(s, chars, i) case None => None case Some(p) => Some(|a| + p)
    decreases |s| - i
  {
    if i < |s| {
      FindFirstOfShift(a, s, chars, i + 1);
    }
  }

  lemma CutShift(a: string, s: string, end: nat)
    requires end <= |s|
    ensures (a + s)[|a|..|a| + end] == s[..end]
  {
  }

  lemma DropShift(a: string, s: string, n: nat)
    requires n <= |s|
    ensures (a + s)[|a| + n..] == s[n..]
  {
  }

  /** A prefix in which no occurrence starts does not change what follows the first occurrence. */
  lemma AfterSkip(a: string, s: string, token: string)
    requires forall i | 0 <= i < |a| :: !At(a + s, token, i)
    ensures After(a + s, token) == After(s, token)
  {
    hide Find, At;
    FindShift(a, s, token, 0);
    FindSkip(a + s, token, 0, |a|);
    var q := Find(s, token, 0);
    if q.Some? { DropShift(a, s, q.value + |token|); }
  }

  /** Equally long heads: one text is a prefix of the other exactly when head and tail are. */
  lemma PrefixSplit(a: string, b: string, c: string, d: string)
    requires |a| == |c|
    ensures a + b <= c + d <==> a == c && b <= d
  {
    if a + b <= c + d {
      assert a == (a + b)[..|a|] == (c + d)[..|a|] == c;
      assert b == (a + b)[|a|..] && d == (c + d)[|a|..];
    }
  }

  // ----- what the character searches mean -----

  lemma {:induction false} FirstOfIsLeast(s: string, chars: string, from: nat)
    ensures var r := FindFirstOf(s, chars, from);
            forall j | from <= j < if r.Some? then r.value else |s| :: s[j] !in chars
    decreases |s| - from
  {
    if from < |s| {
      FirstOfIsLeast(s, chars, from + 1);
    }
  }

  lemma {:induction false} FirstNotOfIsLeast(s: string, chars: string, from: nat)
    ensures var r := FindFirstNotOf(s, chars, from);
            forall j | from <= j < if r.Some? then r.value else |s| :: s[j] in chars
    decreases |s| - from
  {
    if from < |s| {
      FirstNotOfIsLeast(s, chars, from + 1);
    }
  }

  lemma {:induction false} LastNotOfIsGreatest(s: string, chars: string, end: nat)
    requires end <= |s|
    ensures var r := FindLastNotOf(s, chars, end);
            forall j | (if r.Some? then r.value + 1 else 0) <= j < end :: s[j] in chars
  {
    if end > 0 {
      LastNotOfIsGreatest(s, chars, end - 1);
    }
  }

  lemma {:induction false} FirstNotOfAt(s: string, chars: string, from: nat, p: nat)
    requires from <= p < |s| && s[p] !in chars && forall j | from <= j < p :: s[j] in chars
    ensures FindFirstNotOf(s, chars, from) == Some(p)
    decreases |s| - from
  {
    if from < p {
      FirstNotOfAt(s, chars, from + 1, p);
    }
  }

  lemma {:induction false} LastNotOfAt(s: string, chars: string, end: nat, p: nat)
    requires p < end <= |s| && s[p] !in chars && forall j | p < j < end :: s[j] in chars
    ensures FindLastNotOf(s, chars, end) == Some(p)
  {
    if p < end - 1 {
      LastNotOfAt(s, chars, end - 1, p);
    }
  }

  lemma {:induction false} FirstOfAt(s: string, chars: string, from: nat, p: nat)
    requires from <= p < |s| && s[p] in chars && forall j | from <= j < p :: s[j] !in chars
    ensures FindFirstOf(s, chars, from) == Some(p)
    decreases |s| - from
  {
    if from < p {
      FirstOfAt(s, chars, from + 1, p);
    }
  }

  lemma {:induction false} FindAt(s: string, token: string, from: nat, p: nat)
    requires from <= p && At(s, token, p) && forall j | from <= j < p :: !At(s, token, j)
    ensures Find(s, token, from) == Some(p)
    decreases p - from
  {
    if from < p {
      assert !At(s, token, from);
      FindAt(s, token, from + 1, p);
    }
  }

  lemma {:induction false} FindNowhere(s: string, token: string, from: nat)
    requires forall j | from <= j :: !At(s, token, j)
    ensures Find(s, token, from) == None
    decreases |s| - from
  {
    if from + |token| <= |s| {
      assert !At(s, token, from);
      FindNowhere(s, token, from + 1);
    }
  }

  lemma {:induction false} NoneNotOf(s: string, chars: string, from: nat)
    requires forall j | from <= j < |s| :: s[j] in chars
    ensures FindFirstNotOf(s, chars, from) == None
    decreases |s| - from
  {
    if from < |s| {
      NoneNotOf(s, chars, from + 1);
    }
  }
}
