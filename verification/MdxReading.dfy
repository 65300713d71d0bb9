/** What MDX makes of escaped help text: which special characters it would still interpret, and
    which pipes would still end a table cell. */
module MdxReading {
  import opened Escaping
  import opened Sequences
  import opened Wrappers

  // ----- How MDX reads text -----

  /** The length of the backtick string the text starts with. */
  function Ticks(s: string): (n: nat)
    ensures n <= |s|
    ensures n < |s| ==> s[n] != '`'
  {
    if s != "" && s[0] == '`' then 1 + Ticks(s[1..]) else 0
  }

  /** Up to the end of the next backtick string of length `n`, which closes a code span; backslashes
      mean nothing in between (section 6.1 of CommonMark). */
  function Closing(s: string, n: nat): (k: Option<nat>)
    requires n > 0
    ensures k.Some? ==> 0 < k.value <= |s|
    decreases |s|
  {
    var run := Ticks(s);
    if s == "" then None
    else if run == n then Some(n)
    else
      var step := if run > 0 then run else 1;
      Later(step, Closing(s[step..], n))
  }

  function Later(step: nat, k: Option<nat>): Option<nat> {
    match k
    case Some(n) => Some(step + n)
    case None => None
  }

  /** How far a backtick string at the start reaches: through the code span it opens, or, without its
      like later on, just to its own end. */
  function Past(s: string): (n: nat)
    requires s != "" && s[0] == '`'
    ensures 0 < n <= |s|
  {
    var n := Ticks(s);
    match Closing(s[n..], n)
    case Some(k) => n + k
    case None => n
  }

  /** Whether a special character is left to MDX: neither in a code span nor escaped. A backslash
      takes the next character with it. */
  predicate Bare(s: string)
    decreases |s|
  {
    if s == "" then false
    else if s[0] == '\\' then |s| > 1 && Bare(s[2..])
    else if s[0] == '`' then Bare(s[Past(s)..])
    else s[0] in SPECIAL || Bare(s[1..])
  }

  /** Whether a pipe in a table row ends the cell: code or not, only a backslash keeps it from that. */
  predicate BarePipe(s: string)
    decreases |s|
  {
    if s == "" then false
    else if s[0] == '\\' then |s| > 1 && BarePipe(s[2..])
    else s[0] == '|' || BarePipe(s[1..])
  }

  /** Read the same way, whether the value has a special character outside code spans that is
      escaped already where the program adds a backslash, or is not where it adds none. */
  predicate Exposed(v: string, inCode: bool)
    decreases |v|
  {
    if v == "" then false
    else if v[0] == '\\' then |v| > 1 && ((v[1] in SPECIAL && !inCode) || Exposed(v[2..], Next(v[1], inCode)))
    else if v[0] == '`' then Exposed(v[Past(v)..], CodeAfter(v[..Past(v)], inCode))
    else (v[0] in SPECIAL && inCode) || Exposed(v[1..], Next(v[0], inCode))
  }

  /** What a character is to MDX: code or a backtick, taken by a backslash before it, or plain. */
  datatype Mark = Code | Taken | Plain

  function Marks(s: string): (m: seq<Mark>)
    ensures |m| == |s|
    decreases |s|
  {
    if s == "" then []
    else if s[0] == '\\' then if |s| > 1 then [Plain, Taken] + Marks(s[2..]) else [Plain]
    else if s[0] == '`' then seq(Past(s), _ => Code) + Marks(s[Past(s)..])
    else [Plain] + Marks(s[1..])
  }

  /** At `i` stands a special character outside code, escaped already although the program adds a
      backslash, or not escaped although it adds none. */
  predicate Missed(v: string, i: nat, inCode: bool) {
    i < |v| && v[i] in SPECIAL && Marks(v)[i] != Code && (Marks(v)[i] == Taken) == !CodeAfter(v[..i], inCode)
  }

  lemma MissedLater(v: string, k: nat, i: nat, inCode: bool)
    requires k <= i <= |v| && Marks(v)[k..] == Marks(v[k..])
    ensures Missed(v, i, inCode) <==> Missed(v[k..], i - k, CodeAfter(v[..k], inCode))
  {
    hide Marks, CodeAfter;
    CodeAfterSplit(v, k, i - k, inCode);
    if i < |v| {
      assert v[k..][i - k] == v[i] && Marks(v)[k..][i - k] == Marks(v)[i];
    }
  }

  lemma AnyMissedLater(v: string, k: nat, inCode: bool)
    requires k <= |v| && Marks(v)[k..] == Marks(v[k..])
    requires forall i: nat :: i < k ==> !Missed(v, i, inCode)
    ensures (exists i: nat :: Missed(v, i, inCode)) <==> exists i: nat :: Missed(v[k..], i, CodeAfter(v[..k], inCode))
  {
    hide Marks, CodeAfter;
    if i: nat :| Missed(v, i, inCode) {
      MissedLater(v, k, i, inCode);
    }
    if i: nat :| Missed(v[k..], i, CodeAfter(v[..k], inCode)) {
      MissedLater(v, k, k + i, inCode);
    }
  }

  lemma {:induction false} ExposedIs(v: string, inCode: bool)
    ensures Exposed(v, inCode) <==> exists i: nat :: Missed(v, i, inCode)
    decreases |v|
  {
    if v == "" || v == "\\" {
      assert !Exposed(v, inCode);
    } else {
      StepMissed(v, inCode);
      var k := Step(v);
      ExposedIs(v[k..], CodeAfter(v[..k], inCode));
      hide *;
      if forall i: nat :: i < k ==> !Missed(v, i, inCode) {
        AnyMissedLater(v, k, inCode);
      }
    }
  }

  /** How many characters are read together. */
  function Step(v: string): (k: nat)
    requires v != "" && v != "\\"
    ensures 0 < k <= |v|
  {
    if v[0] == '\\' then 2 else if v[0] == '`' then Past(v) else 1
  }

  lemma StepMissed(v: string, inCode: bool)
    requires v != "" && v != "\\"
    ensures Marks(v)[Step(v)..] == Marks(v[Step(v)..])
    ensures Exposed(v, inCode)
            <==> (exists i: nat :: i < Step(v) && Missed(v, i, inCode))
                 || Exposed(v[Step(v)..], CodeAfter(v[..Step(v)], inCode))
  {
    if v[0] == '\\' {
      CodeAfterOne(v, inCode);
      CodeAfterOne(v[1..], inCode);
      CodeAfterSplit(v, 1, 1, inCode);
      assert Missed(v, 1, inCode) <==> v[1] in SPECIAL && !inCode;
      assert forall i: nat :: i < 2 && Missed(v, i, inCode) ==> i == 1;
    } else if v[0] == '`' {
      assert forall i: nat :: i < Past(v) ==> Marks(v)[i] == Code;
    } else {
      CodeAfterOne(v, inCode);
      assert v[..0] == "";
      assert Missed(v, 0, inCode) <==> v[0] in SPECIAL && inCode;
    }
  }

  // ----- Texts and cells, character by character -----

  predicate Adds(c: char, inCode: bool, pipes: bool) {
    (c in SPECIAL && !inCode) || (pipes && c == '|')
  }

  /** What stands for one character. */
  function Put(c: char, inCode: bool, pipes: bool): string {
    if Adds(c, inCode, pipes) then ['\\', c] else [c]
  }

  function Written(s: string, inCode: bool, pipes: bool): string {
    if s == "" then "" else Put(s[0], inCode, pipes) + Written(s[1..], Next(s[0], inCode), pipes)
  }

  lemma {:induction false} TextIsWritten(s: string, inCode: bool)
    ensures Written(s, inCode, false) == Escaped(s, inCode)
  {
    if s != "" {
      TextIsWritten(s[1..], Next(s[0], inCode));
    }
  }

  lemma PipesCons(c: char, rest: string)
    ensures PipesEscaped([c] + rest) == (if c == '|' then ['\\', c] else [c]) + PipesEscaped(rest)
  {
    assert ([c] + rest)[1..] == rest;
  }

  lemma {:induction false} CellIsWritten(s: string, inCode: bool)
    ensures Written(s, inCode, true) == PipesEscaped(Escaped(s, inCode))
  {
    if s != "" {
      hide PipesEscaped;
      var c, rest := s[0], Escaped(s[1..], Next(s[0], inCode));
      CellIsWritten(s[1..], Next(s[0], inCode));
      PipesCons(c, rest);
      if c in SPECIAL && !inCode {
        PipesCons('\\', [c] + rest);
        Assoc(['\\'], [c], rest);
        Assoc(['\\'], [c], PipesEscaped(rest));
        assert ['\\'] + [c] == ['\\', c];
      }
    }
  }

  lemma PutFirst(c: char, rest: string, inCode: bool, pipes: bool)
    ensures var w := Put(c, inCode, pipes) + rest;
            if Adds(c, inCode, pipes) then w[0] == '\\' && w[1] == c && w[1..][0] == c && w[2..] == rest && w[1..][1..] == rest
            else w[0] == c && w[1..] == rest
  {
  }

  lemma CodeAfterSplit(s: string, i: nat, k: nat, inCode: bool)
    requires i + k <= |s|
    ensures CodeAfter(s[..i + k], inCode) == CodeAfter(s[i..][..k], CodeAfter(s[..i], inCode))
  {
    CodeAfterConcat(s[..i], s[i..][..k], inCode);
    assert s[..i + k] == s[..i] + s[i..][..k];
  }

  lemma CodeAfterOne(s: string, inCode: bool)
    requires s != ""
    ensures CodeAfter(s[..1], inCode) == Next(s[0], inCode)
  {
    assert s[..1][1..] == "";
  }

  /** A backtick string is written as it is, and is as long as before. */
  lemma {:induction false} WrittenRun(s: string, inCode: bool, pipes: bool)
    ensures var n, w := Ticks(s), Written(s, inCode, pipes);
            && Ticks(w) == n
            && w[n..] == Written(s[n..], CodeAfter(s[..n], inCode), pipes)
  {
    if s != "" {
      var n, w := Ticks(s), Written(s, inCode, pipes);
      PutFirst(s[0], Written(s[1..], Next(s[0], inCode), pipes), inCode, pipes);
      if s[0] == '`' {
        WrittenRun(s[1..], !inCode, pipes);
        CodeAfterSplit(s, 1, n - 1, inCode);
        CodeAfterOne(s, inCode);
        assert s[n..] == s[1..][n - 1..] && w[n..] == w[1..][n - 1..];
      } else {
        assert n == 0 && s[0..] == s && w[0..] == w && s[..0] == "";
      }
    }
  }

  lemma ClosingStep(s: string, n: nat)
    requires n > 0 && s != "" && s[0] != '`'
    ensures Closing(s, n) == Later(1, Closing(s[1..], n))
  {
  }

  /** The same is left after the closing backtick string of a value and of what is written for it. */
  ghost predicate ClosesAlike(s: string, w: string, inCode: bool, pipes: bool, n: nat)
    requires n > 0
  {
    match Closing(s, n)
    case Some(k) =>
      && Closing(w, n).Some?
      && w[Closing(w, n).value..] == Written(s[k..], CodeAfter(s[..k], inCode), pipes)
    case None => Closing(w, n) == None
  }

  /** Such pairs stay alike with more before them. */
  lemma ClosesLater(s: string, w: string, i: nat, j: nat, inCode: bool, pipes: bool, n: nat)
    requires n > 0 && i <= |s| && j <= |w|
    requires ClosesAlike(s[i..], w[j..], CodeAfter(s[..i], inCode), pipes, n)
    requires Closing(s, n) == Later(i, Closing(s[i..], n)) && Closing(w, n) == Later(j, Closing(w[j..], n))
    ensures ClosesAlike(s, w, inCode, pipes, n)
  {
    hide Closing, Written, CodeAfter;
    match Closing(s[i..], n)
    case Some(k) =>
      CodeAfterSplit(s, i, k, inCode);
      assert s[i + k..] == s[i..][k..];
      var m := Closing(w[j..], n).value;
      assert w[j + m..] == w[j..][m..];
    case None =>
  }

  /** A code span of the value closes at the same backtick string in what is written. */
  lemma {:induction false} ClosingWritten(s: string, inCode: bool, pipes: bool, n: nat)
    requires n > 0
    ensures ClosesAlike(s, Written(s, inCode, pipes), inCode, pipes, n)
    decreases |s|
  {
    if s != "" {
      var run, w := Ticks(s), Written(s, inCode, pipes);
      WrittenRun(s, inCode, pipes);
      if run == 0 {
        PlainCloses(s, inCode, pipes, n);
      } else if run == n {
        assert w != "";
      } else {
        assert w != "";
        ClosingWritten(s[run..], CodeAfter(s[..run], inCode), pipes, n);
        ClosesLater(s, w, run, run, inCode, pipes, n);
      }
    }
  }

  lemma {:induction false} PlainCloses(s: string, inCode: bool, pipes: bool, n: nat)
    requires n > 0 && s != "" && s[0] != '`'
    ensures ClosesAlike(s, Written(s, inCode, pipes), inCode, pipes, n)
    decreases |s|, 0
  {
    var c, next, w := s[0], Next(s[0], inCode), Written(s, inCode, pipes);
    var after := Written(s[1..], next, pipes);
    var j := if Adds(c, inCode, pipes) then 2 else 1;
    assert w == Put(c, inCode, pipes) + after;
    ClosingWritten(s[1..], next, pipes, n);
    CodeAfterOne(s, inCode);
    PutFirst(c, after, inCode, pipes);
    hide Closing, Written, CodeAfter, ClosesAlike, Put;
    ClosingStep(s, n);
    ClosingStep(w, n);
    if j == 2 {
      ClosingStep(w[1..], n);
    }
    ClosesLater(s, w, 1, j, inCode, pipes, n);
  }

  /** What MDX interprets in a written text is what was exposed in the value. */
  lemma {:induction false} BareIs(v: string, inCode: bool, pipes: bool)
    ensures Bare(Written(v, inCode, pipes)) <==> Exposed(v, inCode)
    decreases |v|
  {
    if v == "" {
    } else if v[0] == '\\' {
      if |v| > 1 {
        BareAfterBackslash(v, inCode, pipes);
      } else {
        assert v == "\\" && Written(v, inCode, pipes) == "\\";
      }
    } else if v[0] == '`' {
      BareAfterTicks(v, inCode, pipes);
    } else {
      BareAfterPlain(v, inCode, pipes);
    }
  }

  lemma {:induction false} BareAfterPlain(v: string, inCode: bool, pipes: bool)
    requires v != "" && v[0] != '\\' && v[0] != '`'
    ensures Bare(Written(v, inCode, pipes)) <==> Exposed(v, inCode)
    decreases |v|, 0
  {
    var c, after := v[0], Written(v[1..], inCode, pipes);
    var w := Written(v, inCode, pipes);
    assert w == Put(c, inCode, pipes) + after;
    assert Exposed(v, inCode) == ((c in SPECIAL && inCode) || Exposed(v[1..], inCode));
    hide Written, Bare, Exposed, Put;
    PutFirst(c, after, inCode, pipes);
    BareStep(w);
    BareIs(v[1..], inCode, pipes);
  }

  lemma BareStep(s: string)
    ensures |s| > 1 && s[0] == '\\' ==> Bare(s) == Bare(s[2..])
    ensures s != "" && s[0] != '\\' && s[0] != '`' ==> Bare(s) == (s[0] in SPECIAL || Bare(s[1..]))
  {
  }

  lemma ExposedStep(v: string, inCode: bool)
    requires |v| > 1 && v[0] == '\\'
    ensures Exposed(v, inCode) == ((v[1] in SPECIAL && !inCode) || Exposed(v[2..], Next(v[1], inCode)))
  {
  }

  lemma {:induction false} BareAfterBackslash(v: string, inCode: bool, pipes: bool)
    requires |v| > 1 && v[0] == '\\'
    ensures Bare(Written(v, inCode, pipes)) <==> Exposed(v, inCode)
    decreases |v|, 0
  {
    hide Written, Bare, Exposed;
    var c, next := v[1], Next(v[1], inCode);
    var after := Written(v[2..], next, pipes);
    BareIs(v[2..], next, pipes);
    WrittenPair(v, inCode, pipes);
    ExposedStep(v, inCode);
    BareStep(Written(v, inCode, pipes));
    if Adds(c, inCode, pipes) {
      BareStep([c] + after);
      assert ([c] + after)[1..] == after;
    }
  }

  /** What is written for a backslash and a character, without the two characters a backslash in it
      takes with it. */
  lemma WrittenPair(v: string, inCode: bool, pipes: bool)
    requires |v| > 1 && v[0] == '\\'
    ensures var w, after := Written(v, inCode, pipes), Written(v[2..], Next(v[1], inCode), pipes);
            && |w| > 1 && w[0] == '\\'
            && w[2..] == if Adds(v[1], inCode, pipes) then [v[1]] + after else after
  {
    var rest := v[1..];
    var w, second := Written(v, inCode, pipes), Written(rest, inCode, pipes);
    var after := Written(rest[1..], Next(rest[0], inCode), pipes);
    assert w == Put(v[0], inCode, pipes) + second && second == Put(rest[0], inCode, pipes) + after;
    assert rest[0] == v[1] && rest[1..] == v[2..];
    hide Written, Put;
    PutFirst(v[0], second, inCode, pipes);
    PutFirst(rest[0], after, inCode, pipes);
    assert w[2..] == second[1..];
    if Adds(v[1], inCode, pipes) {
      assert second[1..] == [v[1]] + after;
    }
  }

  lemma {:induction false} BareAfterTicks(v: string, inCode: bool, pipes: bool)
    requires v != "" && v[0] == '`'
    ensures Bare(Written(v, inCode, pipes)) <==> Exposed(v, inCode)
    decreases |v|, 0
  {
    var w := Written(v, inCode, pipes);
    var n := Past(v);
    PastWritten(v, inCode, pipes);
    assert Bare(w) == Bare(w[Past(w)..]);
    assert Exposed(v, inCode) == Exposed(v[n..], CodeAfter(v[..n], inCode));
    hide *;
    BareIs(v[n..], CodeAfter(v[..n], inCode), pipes);
  }

  lemma TicksAtStart(s: string)
    ensures Ticks(s) > 0 <==> s != "" && s[0] == '`'
  {
  }

  lemma PastIs(s: string)
    requires s != "" && s[0] == '`' && Ticks(s) > 0
    ensures Past(s) == match Closing(s[Ticks(s)..], Ticks(s)) case Some(k) => Ticks(s) + k case None => Ticks(s)
  {
  }

  lemma PastAlike(v: string, w: string, inCode: bool, pipes: bool)
    requires v != "" && v[0] == '`' && w != "" && w[0] == '`'
    requires Ticks(w) == Ticks(v) > 0
    requires ClosesAlike(v[Ticks(v)..], w[Ticks(v)..], CodeAfter(v[..Ticks(v)], inCode), pipes, Ticks(v))
    requires w[Ticks(v)..] == Written(v[Ticks(v)..], CodeAfter(v[..Ticks(v)], inCode), pipes)
    ensures w[Past(w)..] == Written(v[Past(v)..], CodeAfter(v[..Past(v)], inCode), pipes)
  {
    hide Closing, Written, Ticks, CodeAfter, Past;
    var n := Ticks(v);
    PastIs(v);
    PastIs(w);
    match Closing(v[n..], n)
    case Some(k) =>
      var j := Closing(w[n..], n).value;
      CodeAfterSplit(v, n, k, inCode);
      assert v[n + k..] == v[n..][k..];
      assert w[n + j..] == w[n..][j..];
    case None =>
  }

  lemma PastWritten(v: string, inCode: bool, pipes: bool)
    requires v != "" && v[0] == '`'
    ensures var w := Written(v, inCode, pipes);
            && w != "" && w[0] == '`'
            && w[Past(w)..] == Written(v[Past(v)..], CodeAfter(v[..Past(v)], inCode), pipes)
  {
    hide *;
    var n, w := Ticks(v), Written(v, inCode, pipes);
    TicksAtStart(v);
    TicksAtStart(w);
    WrittenRun(v, inCode, pipes);
    ClosingWritten(v[n..], CodeAfter(v[..n], inCode), pipes, n);
    PastAlike(v, w, inCode, pipes);
  }

  // ----- Values whose code spans the program sees as MDX does -----

  /** The characters whose backslashes matter: those special and not taken for code, or the pipes. */
  predicate Meant(c: char, inCode: bool, pipes: bool) {
    if pipes then c == '|' else c in SPECIAL && !inCode
  }

  /** How many backslashes stand directly before position `i`. */
  function Backslashes(s: string, i: nat): (n: nat)
    requires i <= |s|
    ensures n <= i
  {
    if i > 0 && s[i - 1] == '\\' then 1 + Backslashes(s, i - 1) else 0
  }

  /** Each of them is escaped, following an odd run of backslashes, or (`wanted` unset) none is. */
  ghost predicate AllEscaped(s: string, pipes: bool, wanted: bool) {
    forall i :: 0 <= i < |s| && Meant(s[i], CodeAfter(s[..i], false), pipes) ==> (Backslashes(s, i) % 2 == 1) == wanted
  }

  // The same, read from left to right: `odd` is set after an odd run of backslashes.

  predicate Odd(c: char, odd: bool) {
    c == '\\' && !odd
  }

  predicate AllFollow(s: string, inCode: bool, pipes: bool, odd: bool, wanted: bool) {
    s != "" ==>
      && (Meant(s[0], inCode, pipes) ==> odd == wanted)
      && AllFollow(s[1..], Next(s[0], inCode), pipes, Odd(s[0], odd), wanted)
  }

  /** Reading on from a position agrees with looking back from each later one. */
  lemma {:induction false} FollowFrom(s: string, k: nat, pipes: bool, wanted: bool)
    requires k <= |s|
    ensures AllFollow(s[k..], CodeAfter(s[..k], false), pipes, Backslashes(s, k) % 2 == 1, wanted)
            <==> forall i :: k <= i < |s| && Meant(s[i], CodeAfter(s[..i], false), pipes) ==>
                   (Backslashes(s, i) % 2 == 1) == wanted
    decreases |s| - k
  {
    if k < |s| {
      FollowFrom(s, k + 1, pipes, wanted);
      assert s[k..][1..] == s[k + 1..] && s[..k + 1] == s[..k] + [s[k]];
      CodeAfterConcat(s[..k], [s[k]], false);
      assert CodeAfter(s[..k + 1], false) == Next(s[k], CodeAfter(s[..k], false));
      assert (Backslashes(s, k + 1) % 2 == 1) == Odd(s[k], Backslashes(s, k) % 2 == 1);
      hide CodeAfter, Backslashes;
    }
  }

  lemma AllEscapedIs(s: string, pipes: bool, wanted: bool)
    ensures AllEscaped(s, pipes, wanted) <==> AllFollow(s, false, pipes, false, wanted)
  {
    assert CodeAfter(s[..0], false) == false && Backslashes(s, 0) == 0 && s[0..] == s;
    hide CodeAfter, Backslashes, AllFollow;
    FollowFrom(s, 0, pipes, wanted);
  }

  /** Outside code spans backticks are single and not escaped, and each has its like. */
  predicate Paired(s: string)
    decreases |s|
  {
    if s == "" then true
    else if s[0] == '\\' then |s| > 1 ==> s[1] != '`' && Paired(s[2..])
    else if s[0] == '`' then
      && Ticks(s) == 1
      && Closing(s[1..], 1).Some?
      && var k := Closing(s[1..], 1).value;
      && '`' !in s[1..k]
      && Paired(s[1 + k..])
    else Paired(s[1..])
  }

  lemma {:induction false} SkipCode(s: string, k: nat)
    requires 0 < k <= |s| && '`' !in s[..k - 1] && s[k - 1] == '`'
    ensures !CodeAfter(s[..k], true)
    ensures forall odd :: AllFollow(s, true, false, odd, false) == AllFollow(s[k..], false, false, false, false)
  {
    if k > 1 {
      SkipCode(s[1..], k - 1);
      assert s[1..][..k - 1] == s[..k][1..] && s[1..][k - 1..] == s[k..];
      assert s[1..][..k - 2] == s[..k - 1][1..];
      assert s[0] == s[..k - 1][0];
    } else {
      assert s[..1][1..] == "";
    }
  }

  /** A run of length `n` ends what `Closing` finds. */
  lemma {:induction false} ClosingEnds(s: string, n: nat)
    requires n > 0 && Closing(s, n).Some?
    ensures n <= Closing(s, n).value <= |s| && s[Closing(s, n).value - 1] == '`'
    ensures Closing(s, n).value < |s| ==> s[Closing(s, n).value] != '`'
    decreases |s|
  {
    var run := Ticks(s);
    if run == n {
      TicksAre(s);
    } else {
      ClosingEnds(s[if run > 0 then run else 1..], n);
    }
  }

  lemma {:induction false} TicksAre(s: string)
    ensures IsRun(s[..Ticks(s)])
  {
    if s != "" && s[0] == '`' {
      TicksAre(s[1..]);
      assert s[..Ticks(s)] == [s[0]] + s[1..][..Ticks(s) - 1];
    }
  }

  /** Where the program sees the code spans MDX sees, a special character is exposed exactly if it
      was escaped. */
  lemma {:induction false} PairedExposed(v: string)
    requires Paired(v)
    ensures Exposed(v, false) <==> !AllFollow(v, false, false, false, false)
    decreases |v|
  {
    if v == "" {
    } else if v[0] == '\\' {
      if |v| > 1 {
        PairedExposed(v[2..]);
        assert v[1..][0] == v[1] && v[1..][1..] == v[2..];
      }
    } else if v[0] == '`' {
      var k := Closing(v[1..], 1).value;
      ClosingEnds(v[1..], 1);
      assert v[1..][..k - 1] == v[1..k] && v[1..][k..] == v[1 + k..];
      SkipCode(v[1..], k);
      CodeAfterSplit(v, 1, k, false);
      CodeAfterOne(v, false);
      PairedExposed(v[1 + k..]);
    } else {
      PairedExposed(v[1..]);
    }
  }

  lemma {:induction false} PlainExposed(v: string, inCode: bool)
    requires '`' !in v
    ensures Exposed(v, inCode) <==> !AllFollow(v, false, false, false, inCode)
    decreases |v|
  {
    if v == "" {
    } else if v[0] == '\\' {
      if |v| > 1 {
        PlainExposed(v[2..], inCode);
        assert v[1..][0] == v[1] && v[1..][1..] == v[2..];
      }
    } else {
      PlainExposed(v[1..], inCode);
    }
  }

  predicate EndsPlain(s: string) {
    s == "" || s[|s| - 1] !in {'`', '\\'}
  }

  lemma {:induction false} ClosingIn(a: string, b: string, k: nat)
    requires 0 < k < |a| && '`' !in a[..k - 1] && a[k - 1] == '`' && a[k] != '`'
    ensures Closing(a + b, 1) == Some(k)
  {
    Tail(a, b);
    if k > 1 {
      assert a[..k - 1][0] == a[0];
      assert a[1..][..k - 2] == a[..k - 1][1..];
      ClosingIn(a[1..], b, k - 1);
      ClosingStep(a + b, 1);
    } else {
      assert a + b != "" && (a + b)[1..][0] == a[1];
      assert Ticks((a + b)[1..]) == 0;
      assert Ticks(a + b) == 1;
    }
  }

  lemma SpanIn(a: string, b: string, k: nat)
    requires a != "" && a[0] == '`' && 0 < k < |a| - 1
    requires '`' !in a[1..k] && a[1] != '`' && a[k] == '`' && a[k + 1] != '`'
    ensures Ticks(a + b) == 1 && Closing((a + b)[1..], 1) == Some(k)
    ensures (a + b)[1 + k..] == a[1 + k..] + b
    ensures !CodeAfter((a + b)[..1 + k], false) && !CodeAfter(a[..1 + k], false)
  {
    Tail(a, b);
    assert (a + b)[1..][0] == a[1];
    assert a[1..][..k - 1] == a[1..k];
    ClosingIn(a[1..], b, k);
    SkipCode(a[1..], k);
    CodeAfterSplit(a, 1, k, false);
    CodeAfterOne(a, false);
    assert (a + b)[..1 + k] == a[..1 + k];
  }

  lemma {:induction false} NoClosing(s: string, n: nat)
    requires n > 0 && '`' !in s
    ensures Closing(s, n) == None
  {
    if s != "" {
      NoClosing(s[1..], n);
    }
  }

  lemma {:induction false} ExposedAfter(a: string, b: string)
    requires Paired(a) && EndsPlain(a)
    ensures Exposed(a + b, false) <==> Exposed(a, false) || Exposed(b, false)
    decreases |a|
  {
    if a == "" {
      assert a + b == b;
    } else if a[0] == '\\' {
      assert |a| > 1;
      ExposedAfter(a[2..], b);
      assert (a + b)[2..] == a[2..] + b && (a + b)[1] == a[1];
      ExposedStep(a, false);
      ExposedStep(a + b, false);
      hide Exposed;
    } else if a[0] == '`' {
      ExposedAfterSpan(a, b);
    } else {
      ExposedAfter(a[1..], b);
      Tail(a, b);
    }
  }

  lemma {:induction false} ExposedAfterSpan(a: string, b: string)
    requires Paired(a) && EndsPlain(a) && a != "" && a[0] == '`'
    ensures Exposed(a + b, false) <==> Exposed(a, false) || Exposed(b, false)
    decreases |a|, 0
  {
    var k := Closing(a[1..], 1).value;
    ClosingEnds(a[1..], 1);
    assert a[1..][k - 1] == a[k] == '`';
    assert k < |a[1..]| && a[k + 1] == a[1..][k];
    SpanIn(a, b, k);
    assert Past(a) == Past(a + b) == 1 + k;
    assert Exposed(a, false) == Exposed(a[1 + k..], false);
    assert Exposed(a + b, false) == Exposed(a[1 + k..] + b, false);
    hide Exposed;
    ExposedAfter(a[1 + k..], b);
  }

  lemma {:induction false} BarePipeIs(v: string, inCode: bool)
    ensures BarePipe(Written(v, inCode, true)) <==> !AllFollow(v, inCode, true, false, false)
    decreases |v|
  {
    if v != "" {
      var w, next := Written(v, inCode, true), Next(v[0], inCode);
      PutFirst(v[0], Written(v[1..], next, true), inCode, true);
      if v[0] == '\\' {
        if |v| > 1 {
          PipeAfterBackslash(v, inCode);
        }
      } else {
        BarePipeIs(v[1..], next);
      }
    }
  }

  lemma {:induction false} PipeAfterBackslash(v: string, inCode: bool)
    requires |v| > 1 && v[0] == '\\'
    ensures BarePipe(Written(v, inCode, true)) <==> !AllFollow(v, inCode, true, false, false)
    decreases |v|, 0
  {
    var w, c, next := Written(v, inCode, true), v[1], Next(v[1], inCode);
    var after := Written(v[2..], next, true);
    assert v[1..][0] == c && v[1..][1..] == v[2..];
    WrittenPair(v, inCode, true);
    BarePipeIs(v[2..], next);
    if Adds(c, inCode, true) {
      assert ([c] + after)[1..] == after;
    }
  }

  /** In escaped text every special character not taken for code directly follows a backslash. MDX
      interprets none exactly if, wherever a special character of the value stands outside code, it is
      escaped already if and only if the program adds no backslash. */
  lemma NothingBare(value: string)
    ensures forall i :: 0 <= i < |Escaped(value, false)| && Active(Escaped(value, false), false, false, i) ==>
              i > 0 && Escaped(value, false)[i - 1] == '\\'
    ensures Bare(Escaped(value, false)) <==> exists i: nat :: Missed(value, i, false)
  {
    EscapedIsPreceded(value, false, ' ');
    forall i | 0 <= i < |Escaped(value, false)| && Active(Escaped(value, false), false, false, i)
      ensures i > 0 && Escaped(value, false)[i - 1] == '\\'
    {
      PrecededAt(Escaped(value, false), false, false, ' ', i);
    }
    TextIsWritten(value, false);
    BareIs(value, false, false);
    ExposedIs(value, false);
  }

  /** The same in a cell, where a pipe is left to end it exactly if one in the value was escaped. */
  lemma NothingBareInCell(value: string)
    ensures forall i :: 0 <= i < |Cell(value)| && Active(Cell(value), false, true, i) ==> i > 0 && Cell(value)[i - 1] == '\\'
    ensures Bare(Cell(value)) <==> exists i: nat :: Missed(value, i, false)
    ensures BarePipe(Cell(value)) <==> !AllEscaped(value, true, false)
  {
    EscapedIsPreceded(value, false, ' ');
    PipesArePreceded(Escaped(value, false), false, ' ');
    forall i | 0 <= i < |Cell(value)| && Active(Cell(value), false, true, i)
      ensures i > 0 && Cell(value)[i - 1] == '\\'
    {
      PrecededAt(Cell(value), false, true, ' ', i);
    }
    CellIsWritten(value, false);
    BareIs(value, false, true);
    ExposedIs(value, false);
    BarePipeIs(value, false);
    AllEscapedIs(value, true, false);
  }

  /** With the code spans the program sees, everything is escaped exactly if nothing was. */
  lemma PairedText(value: string)
    requires Paired(value)
    ensures !Bare(Escaped(value, false)) <==> AllEscaped(value, false, false)
    ensures !Bare(Cell(value)) <==> AllEscaped(value, false, false)
  {
    NothingBare(value);
    NothingBareInCell(value);
    ExposedIs(value, false);
    PairedExposed(value);
    AllEscapedIs(value, false, false);
  }

  /** After a backtick without its like the program adds no backslashes. */
  lemma LoneBacktick(before: string, after: string)
    requires Paired(before) && EndsPlain(before) && '`' !in after
    ensures !Bare(Escaped(before + "`" + after, false))
            <==> AllEscaped(before, false, false) && AllEscaped(after, false, true)
  {
    var v := "`" + after;
    Assoc(before, "`", after);
    NothingBare(before + v);
    ExposedIs(before + v, false);
    ExposedAfter(before, v);
    PairedExposed(before);
    AllEscapedIs(before, false, false);
    assert v[1..] == after && v[..1] == "`";
    assert Ticks(v) == 1;
    NoClosing(after, 1);
    CodeAfterOne(v, false);
    PlainExposed(after, true);
    AllEscapedIs(after, false, true);
  }

  /** A backslash of the value's own takes the inserted one's effect away. */
  lemma BackslashBefore()
    ensures Escaped("\\<", false) == "\\\\<" && Bare(Escaped("\\<", false))
    ensures Cell("\\|") == "\\\\|" && BarePipe(Cell("\\|"))
  {
    assert "\\<"[1..] == "<" && "<"[1..] == "" && "\\|"[1..] == "|" && "|"[1..] == "";
    assert Escaped("<", false) == "\\<" && Escaped("\\<", false) == "\\\\<";
    assert Escaped("|", false) == "|" && Escaped("\\|", false) == "\\|";
    assert PipesEscaped("|") == "\\|" && PipesEscaped("\\|") == "\\\\|";
    assert "\\\\<"[2..] == "<" && "\\\\|"[2..] == "|";
  }

  /** A backtick without its like keeps the rest of the text as it is. */
  lemma BacktickBefore()
    ensures Escaped("`<", false) == "`<" && Bare("`<")
  {
    assert "`<"[1..] == "<" && "<"[1..] == "";
    assert Ticks("<") == 0 && Ticks("`<") == 1 && Closing("", 1) == None && Closing("<", 1) == None;
    assert Past("`<") == 1;
    assert Escaped("<", true) == "<";
  }

  lemma {:induction false} NoneAdded(s: string, inCode: bool)
    requires '`' !in s
    ensures '`' !in Escaped(s, inCode)
  {
    if s != "" {
      NoneAdded(s[1..], inCode);
    }
  }

  lemma {:induction false} RunLength(ticks: string, rest: string)
    requires IsRun(ticks) && (rest == "" || rest[0] != '`')
    ensures Ticks(ticks + rest) == |ticks|
  {
    if ticks == "" {
      assert ticks + rest == rest;
    } else {
      Tail(ticks, rest);
      RunLength(ticks[1..], rest);
    }
  }

  lemma {:induction false} RunCloses(code: string, ticks: string)
    requires '`' !in code && IsRun(ticks) && ticks != ""
    ensures Closing(code + ticks, |ticks|) == Some(|code| + |ticks|)
  {
    if code == "" {
      RunLength(ticks, "");
      assert code + ticks == ticks && ticks + "" == ticks;
    } else {
      Tail(code, ticks);
      RunCloses(code[1..], ticks);
      ClosingStep(code + ticks, |ticks|);
    }
  }

  /** What stands between two backtick strings of a length is code. */
  lemma SpanIsCode(ticks: string, code: string)
    requires IsRun(ticks) && ticks != "" && code != "" && '`' !in code
    ensures !Bare(ticks + (code + ticks))
  {
    var s := ticks + (code + ticks);
    RunLength(ticks, code + ticks);
    RunCloses(code, ticks);
    assert s[0] == ticks[0] && s[|ticks|..] == code + ticks;
    assert Past(s) == |s| && s[|s|..] == "";
  }

  /** Between backtick strings of an even length code is given backslashes all the same, before each
      special character in it. */
  lemma CodeChanged(ticks: string, code: string)
    requires IsRun(ticks) && ticks != "" && |ticks| % 2 == 0 && code != "" && '`' !in code
    ensures Escaped(ticks + (code + ticks), false) == ticks + (Escaped(code, false) + ticks)
    ensures !Bare(ticks + (code + ticks)) && !Bare(ticks + (Escaped(code, false) + ticks))
    ensures Escaped(code, false) == code <==> forall i :: 0 <= i < |code| ==> code[i] !in SPECIAL
  {
    NoneAdded(code, false);
    assert Escaped(code, false) != "";
    hide Bare, Escaped, CodeAfter;
    SpanIsCode(ticks, code);
    SpanIsCode(ticks, Escaped(code, false));
    RunIsKept(ticks, false);
    NoBackticks(code, false);
    EscapedConcat(ticks, code + ticks, false);
    EscapedConcat(code, ticks, false);
    KeptIf(code, false);
    forall i | 0 <= i < |code|
      ensures !CodeAfter(code[..i], false)
    {
      NoBackticks(code[..i], false);
    }
  }
}
