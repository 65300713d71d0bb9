/** Live completion: the walk from the root command along the words before the cursor. */
module CommandWalk {
  import opened Sequences
  import opened Wrappers

  datatype Action = Set | Append | SetTrue | Count | Help

  datatype Arg = Arg(id: string, long: Option<string>, short: Option<char>, action: Action) {
    predicate TakesValue() {
      action.Set? || action.Append?
    }
  }

  datatype Command = Command(name: string, aliases: seq<string>, hidden: bool, args: seq<Arg>, subs: seq<Command>) {
    predicate Answers(word: string) {
      name == word || word in aliases
    }
  }

  function FirstSub(subs: seq<Command>, word: string): (sub: Option<Command>)
    ensures sub.Some? ==> sub.value in subs && sub.value.Answers(word)
  {
    if subs == [] then None else if subs[0].Answers(word) then Some(subs[0]) else FirstSub(subs[1..], word)
  }

  /** The subcommand found is the first that answers to the word; none is found if none does. */
  lemma {:induction false} FirstAnswers(subs: seq<Command>, word: string)
    ensures FirstSub(subs, word).None? <==> forall i :: 0 <= i < |subs| ==> !subs[i].Answers(word)
    ensures FirstSub(subs, word).Some? ==>
              exists i :: 0 <= i < |subs| && FirstSub(subs, word).value == subs[i] && forall j :: 0 <= j < i ==> !subs[j].Answers(word)
  {
    if subs != [] && !subs[0].Answers(word) {
      FirstAnswers(subs[1..], word);
      assert forall i :: 0 < i < |subs| ==> subs[i] == subs[1..][i - 1];
      if FirstSub(subs, word).Some? {
        var i :| 0 <= i < |subs[1..]| && FirstSub(subs, word).value == subs[1..][i] && forall j :: 0 <= j < i ==> !subs[1..][j].Answers(word);
        assert FirstSub(subs, word).value == subs[i + 1];
        assert forall j :: 0 <= j < i + 1 ==> !subs[j].Answers(word);
      }
    }
  }

  /** The subcommand a word enters: the first that answers to it, unless that one is hidden. */
  function FindSub(command: Command, word: string): Option<Command> {
    var sub := FirstSub(command.subs, word);
    if sub.Some? && !sub.value.hidden then sub else None
  }

  function FirstLong(args: seq<Arg>, long: string): Option<Arg> {
    if args == [] then None else if args[0].long == Some(long) then Some(args[0]) else FirstLong(args[1..], long)
  }

  function FirstShort(args: seq<Arg>, short: char): Option<Arg> {
    if args == [] then None else if args[0].short == Some(short) then Some(args[0]) else FirstShort(args[1..], short)
  }

  predicate IsDashed(word: string) {
    word != "" && word[0] == '-'
  }

  function FindOption(command: Command, word: string): Option<Arg> {
    if "--" <= word then FirstLong(command.args, word[2..])
    else if |word| == 2 && word[0] == '-' then FirstShort(command.args, word[1])
    else None
  }

  function Word(words: seq<string>, i: nat): string {
    if i < |words| then words[i] else ""
  }

  predicate Consumes(command: Command, word: string) {
    IsDashed(word) && '=' !in word && FindOption(command, word).Some? && FindOption(command, word).value.TakesValue()
  }

  datatype Place = Place(command: Command, positionals: nat)

  function Step(at: Place, word: string): Place {
    var sub := FindSub(at.command, word);
    if sub.Some? then Place(sub.value, 0)
    else if IsDashed(word) then at
    else at.(positionals := at.positionals + 1)
  }

  /** A word enters the first subcommand with that name or alias, unless that one is hidden. */
  lemma EntersIs(command: Command, word: string, i: nat)
    requires i < |command.subs| && (command.subs[i].name == word || word in command.subs[i].aliases)
    requires forall j :: 0 <= j < i ==> command.subs[j].name != word && word !in command.subs[j].aliases
    ensures FindSub(command, word) == if command.subs[i].hidden then None else Some(command.subs[i])
  {
    FirstAnswers(command.subs, word);
    assert command.subs[i].Answers(word);
  }

  lemma {:induction false} FirstLongAt(args: seq<Arg>, long: string, i: nat)
    requires i < |args| && args[i].long == Some(long) && forall j :: 0 <= j < i ==> args[j].long != Some(long)
    ensures FirstLong(args, long) == Some(args[i])
  {
    if i > 0 {
      FirstLongAt(args[1..], long, i - 1);
    }
  }

  lemma {:induction false} FirstShortAt(args: seq<Arg>, short: char, i: nat)
    requires i < |args| && args[i].short == Some(short) && forall j :: 0 <= j < i ==> args[j].short != Some(short)
    ensures FirstShort(args, short) == Some(args[i])
  {
    if i > 0 {
      FirstShortAt(args[1..], short, i - 1);
    }
  }

  /** The first option with a long name takes the next word exactly if it is set or added to; with its
      value after an equals sign it never does. */
  lemma LongTakes(command: Command, long: string, i: nat)
    requires i < |command.args| && command.args[i].long == Some(long) && '=' !in long
    requires forall j :: 0 <= j < i ==> command.args[j].long != Some(long)
    ensures Consumes(command, "--" + long) <==> command.args[i].action == Set || command.args[i].action == Append
    ensures forall value: string :: !Consumes(command, "--" + long + "=" + value)
  {
    FirstLongAt(command.args, long, i);
    assert ("--" + long)[2..] == long && '=' !in "--" + long;
    forall value: string
      ensures '=' in "--" + long + "=" + value
    {
      assert ("--" + long + "=" + value)[|"--" + long|] == '=';
    }
  }

  /** So does the first with a letter. */
  lemma ShortTakes(command: Command, short: char, i: nat)
    requires i < |command.args| && command.args[i].short == Some(short) && short != '-' && short != '='
    requires forall j :: 0 <= j < i ==> command.args[j].short != Some(short)
    ensures Consumes(command, ['-', short]) <==> command.args[i].action == Set || command.args[i].action == Append
  {
    FirstShortAt(command.args, short, i);
    assert ['-', short][1] != '-';
  }

  /** The words from position `i` up to the cursor; those that are missing count as empty. */
  function Before(words: seq<string>, i: nat, index: nat): seq<string>
    decreases index - i
  {
    if i >= index then [] else [Word(words, i)] + Before(words, i + 1, index)
  }

  /** The word is an option that takes the next word as its value. */
  predicate Skips(at: Place, word: string) {
    FindSub(at.command, word).None? && Consumes(at.command, word)
  }

  function WalkOver(at: Place, line: seq<string>): Place
    decreases |line|
  {
    if line == [] then at
    else if Skips(at, line[0]) then
      if |line| == 1 then at else WalkOver(at, line[2..])
    else WalkOver(Step(at, line[0]), line[1..])
  }

  method Walk(root: Command, words: seq<string>, index: nat) returns (command: Command, positionals: nat)
    ensures Place(command, positionals) == WalkOver(Place(root, 0), Before(words, 1, index))
  {
    command, positionals := root, 0;
    var i := 1;
    while i < index
      invariant WalkOver(Place(command, positionals), Before(words, i, index)) == WalkOver(Place(root, 0), Before(words, 1, index))
      decreases index - i
    {
      var word := Word(words, i);
      ghost var at, line := Place(command, positionals), Before(words, i, index);
      assert line[0] == word && line[1..] == Before(words, i + 1, index);
      var sub := FindSub(command, word);
      if sub.Some? {
        command := sub.value;
        positionals := 0;
      } else if IsDashed(word) {
        if '=' !in word && FindOption(command, word).Some? && FindOption(command, word).value.TakesValue() {
          i := i + 1;
          assert i < index ==> line[2..] == Before(words, i, index)[1..] == Before(words, i + 1, index);
        }
      } else {
        positionals := positionals + 1;
      }
      i := i + 1;
    }
  }

  // ----- Lines with a structure -----

  datatype Item =
    | Enter(word: string)
    | LongFlag(arg: Arg)
    | ShortFlag(arg: Arg)
    | LongEquals(arg: Arg, value: string)
    | LongValue(arg: Arg, value: string)
    | ShortValue(arg: Arg, value: string)
    | Unknown(word: string)
    | Positional(word: string)

  function Typed(item: Item): seq<string>
    requires item.LongFlag? || item.LongEquals? || item.LongValue? ==> item.arg.long.Some?
    requires item.ShortFlag? || item.ShortValue? ==> item.arg.short.Some?
  {
    match item
    case Enter(word) => [word]
    case LongFlag(arg) => ["--" + arg.long.value]
    case ShortFlag(arg) => [['-', arg.short.value]]
    case LongEquals(arg, value) => ["--" + arg.long.value + "=" + value]
    case LongValue(arg, value) => ["--" + arg.long.value, value]
    case ShortValue(arg, value) => [['-', arg.short.value], value]
    case Unknown(word) => [word]
    case Positional(word) => [word]
  }

  /** The item means something after `command`: a visible subcommand, one of its options with
      or without a value, a dashed word that is none of them, or a plain word. Values are free. */
  predicate Fits(command: Command, item: Item) {
    match item
    case Enter(word) => FindSub(command, word).Some?
    case LongFlag(arg) => arg in command.args && arg.long.Some? && !arg.TakesValue()
    case ShortFlag(arg) => arg in command.args && arg.short.Some? && !arg.TakesValue()
    case LongEquals(arg, _) => arg in command.args && arg.long.Some?
    case LongValue(arg, _) => arg in command.args && arg.long.Some? && arg.TakesValue()
    case ShortValue(arg, _) => arg in command.args && arg.short.Some? && arg.TakesValue()
    case Unknown(word) => IsDashed(word) && (FindOption(command, word).None? || '=' in word)
    case Positional(word) => !IsDashed(word) && FindSub(command, word).None?
  }

  function After(at: Place, item: Item): Place
    requires Fits(at.command, item)
  {
    match item
    case Enter(word) => Place(FindSub(at.command, word).value, 0)
    case Positional(_) => at.(positionals := at.positionals + 1)
    case _ => at
  }

  /** What the definitions guarantee of a command: its options have distinct names that can be
      told apart from values, and no subcommand is named like an option. */
  ghost predicate Defined(command: Command) {
    && (forall a :: a in command.args && a.long.Some? ==> '=' !in a.long.value)
    && (forall a :: a in command.args && a.short.Some? ==> a.short.value != '-' && a.short.value != '=')
    && (forall a, b :: a in command.args && b in command.args && a.long.Some? && a.long == b.long ==> a == b)
    && (forall a, b :: a in command.args && b in command.args && a.short.Some? && a.short == b.short ==> a == b)
    && (forall s, word :: s in command.subs && s.Answers(word) ==> !IsDashed(word))
  }

  /** The items fit one after the other, each where the ones before it lead. */
  ghost predicate FitAll(at: Place, items: seq<Item>)
    decreases items
  {
    items != [] ==>
      && Defined(at.command)
      && Fits(at.command, items[0])
      && FitAll(After(at, items[0]), items[1..])
  }

  ghost function TypedAll(at: Place, items: seq<Item>): seq<string>
    requires FitAll(at, items)
    decreases items
  {
    if items == [] then [] else Typed(items[0]) + TypedAll(After(at, items[0]), items[1..])
  }

  /** The subcommand and the number of positional words the line was written to reach. */
  ghost function Arrive(at: Place, items: seq<Item>): Place
    requires FitAll(at, items)
    decreases items
  {
    if items == [] then at else Arrive(After(at, items[0]), items[1..])
  }

  lemma {:induction false} FirstLongIs(args: seq<Arg>, arg: Arg)
    requires arg in args && arg.long.Some?
    requires forall b :: b in args && b.long == arg.long ==> b == arg
    ensures FirstLong(args, arg.long.value) == Some(arg)
  {
    if args[0].long != arg.long {
      FirstLongIs(args[1..], arg);
    }
  }

  lemma {:induction false} FirstShortIs(args: seq<Arg>, arg: Arg)
    requires arg in args && arg.short.Some?
    requires forall b :: b in args && b.short == arg.short ==> b == arg
    ensures FirstShort(args, arg.short.value) == Some(arg)
  {
    if args[0].short != arg.short {
      FirstShortIs(args[1..], arg);
    }
  }

  /** An item's first word is taken as what it is: it steps to the right place and skips the
      next word exactly when that is its value. */
  lemma ItemUnderstood(at: Place, item: Item)
    requires Defined(at.command) && Fits(at.command, item)
    ensures Step(at, Typed(item)[0]) == After(at, item)
    ensures Skips(at, Typed(item)[0]) <==> item.LongValue? || item.ShortValue?
  {
    var command, word := at.command, Typed(item)[0];
    match item {
      case Enter(_) =>
      case Unknown(_) =>
      case Positional(_) =>
      case LongEquals(arg, value) =>
        assert word[|"--" + arg.long.value|] == '=';
      case LongFlag(arg) =>
        LongIsFound(command, arg);
      case LongValue(arg, _) =>
        LongIsFound(command, arg);
      case ShortFlag(arg) =>
        ShortIsFound(command, arg);
      case ShortValue(arg, _) =>
        ShortIsFound(command, arg);
    }
  }

  lemma ShortIsFound(command: Command, arg: Arg)
    requires Defined(command) && arg in command.args && arg.short.Some?
    ensures FindOption(command, ['-', arg.short.value]) == Some(arg)
    ensures IsDashed(['-', arg.short.value]) && '=' !in ['-', arg.short.value]
  {
    FirstShortIs(command.args, arg);
    assert ['-', arg.short.value][1] != '-';
  }

  lemma LongIsFound(command: Command, arg: Arg)
    requires Defined(command) && arg in command.args && arg.long.Some?
    ensures FindOption(command, "--" + arg.long.value) == Some(arg)
    ensures IsDashed("--" + arg.long.value) && '=' !in "--" + arg.long.value
  {
    FirstLongIs(command.args, arg);
    assert ("--" + arg.long.value)[2..] == arg.long.value;
  }

  /** The words of an item move the walk on by that item. */
  lemma WalkItem(at: Place, item: Item, rest: seq<string>)
    requires Defined(at.command) && Fits(at.command, item)
    ensures WalkOver(at, Typed(item) + rest) == WalkOver(After(at, item), rest)
  {
    ItemUnderstood(at, item);
    var line := Typed(item) + rest;
    assert line[0] == Typed(item)[0];
    if item.LongValue? || item.ShortValue? {
      assert line[2..] == rest;
    } else {
      assert line[1..] == rest;
    }
  }

  lemma {:induction false} WalkItems(at: Place, items: seq<Item>, rest: seq<string>)
    requires FitAll(at, items)
    ensures WalkOver(at, TypedAll(at, items) + rest) == WalkOver(Arrive(at, items), rest)
    decreases items
  {
    if items == [] {
      assert [] + rest == rest;
    } else {
      var next := After(at, items[0]);
      Assoc(Typed(items[0]), TypedAll(next, items[1..]), rest);
      WalkItem(at, items[0], TypedAll(next, items[1..]) + rest);
      WalkItems(next, items[1..], rest);
    }
  }

  lemma {:induction false} BeforeIsSlice(words: seq<string>, i: nat, index: nat)
    requires i <= index <= |words|
    ensures Before(words, i, index) == words[i..index]
    decreases index - i
  {
    if i < index {
      BeforeIsSlice(words, i + 1, index);
      assert words[i..index] == [words[i]] + words[i + 1..index];
    }
  }

  /** For every command tree and every line with a structure, the walk over its words reaches
      the intended subcommand with the intended number of positional words, whatever stands in
      the option values and after the cursor. */
  lemma WalkArrives(root: Command, items: seq<Item>, words: seq<string>, index: nat)
    requires FitAll(Place(root, 0), items)
    requires 1 <= index <= |words| && words[1..index] == TypedAll(Place(root, 0), items)
    ensures WalkOver(Place(root, 0), Before(words, 1, index)) == Arrive(Place(root, 0), items)
  {
    BeforeIsSlice(words, 1, index);
    WalkItems(Place(root, 0), items, []);
    assert words[1..index] + [] == words[1..index];
  }

  /** Nothing changes while the value of a last option is still being typed. */
  lemma WalkArrivesBeforeValue(root: Command, items: seq<Item>, option: Item, words: seq<string>, index: nat)
    requires FitAll(Place(root, 0), items)
    requires option.LongValue? || option.ShortValue?
    requires Defined(Arrive(Place(root, 0), items).command) && Fits(Arrive(Place(root, 0), items).command, option)
    requires 2 <= index <= |words| && words[1..index] == TypedAll(Place(root, 0), items) + [Typed(option)[0]]
    ensures WalkOver(Place(root, 0), Before(words, 1, index)) == Arrive(Place(root, 0), items)
  {
    BeforeIsSlice(words, 1, index);
    WalkItems(Place(root, 0), items, [Typed(option)[0]]);
    ItemUnderstood(Arrive(Place(root, 0), items), option);
  }

  /** On any words at all the walk only goes down visible subcommands. */
  lemma {:induction false} WalkStaysVisible(at: Place, line: seq<string>) returns (path: seq<Command>)
    ensures path != [] && path[0] == at.command && path[|path| - 1] == WalkOver(at, line).command
    ensures forall k :: 0 < k < |path| ==> path[k] in path[k - 1].subs && !path[k].hidden
    decreases |line|
  {
    if line == [] || (Skips(at, line[0]) && |line| == 1) {
      path := [at.command];
    } else if Skips(at, line[0]) {
      path := WalkStaysVisible(at, line[2..]);
    } else {
      path := WalkStaysVisible(Step(at, line[0]), line[1..]);
      if FindSub(at.command, line[0]).Some? {
        path := [at.command] + path;
      }
    }
  }
}
