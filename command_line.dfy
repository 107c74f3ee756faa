/**
 * getCommandLineArgs (index.ts, lines 299-328): each argument is split at
 * "=" into a key and a value; `--addresses`, `--dataFolder` and
 * `--balanceThreshold` are read, the last occurrence of each winning, and a
 * run with no address list is an error. The process exit, the error message
 * and the TypeError thrown by `--addresses` without "=" become error results.
 */
module CommandLine {
  import opened Wrappers

  /** The arguments the rest of the program receives. `dataFolderPath` is None when it is `undefined`. */
  datatype Arguments = Arguments(addresses: seq<string>, balanceThreshold: real, dataFolderPath: Option<string>)

  datatype ArgumentError =
    | MissingAddresses       // no --addresses: message on standard error, exit code 1
    | AddressesWithoutValue  // "--addresses" with no "=": `undefined.split(",")` throws

  /** JavaScript's `s.split(sep)` for a one-character separator. */
  function Split(s: string, sep: char): (pieces: seq<string>)
    ensures |pieces| >= 1
    ensures forall i :: 0 <= i < |pieces| ==> sep !in pieces[i]
    decreases |s|
  {
    if s == [] then [""]
    else
      var rest := Split(s[1..], sep);
      if s[0] == sep then [""] + rest else [[s[0]] + rest[0]] + rest[1..]
  }

  /** JavaScript's `pieces.join(sep)` for a non-empty array. */
  function Join(pieces: seq<string>, sep: char): string
    requires |pieces| >= 1
    decreases |pieces|
  {
    if |pieces| == 1 then pieces[0] else pieces[0] + [sep] + Join(pieces[1..], sep)
  }

  /** Joining the pieces back gives the split string. */
  lemma {:induction false} JoinSplit(s: string, sep: char)
    ensures Join(Split(s, sep), sep) == s
    decreases |s|
  {
    if s != [] {
      var rest := Split(s[1..], sep);
      JoinSplit(s[1..], sep);
      if s[0] == sep {
        assert ([""] + rest)[1..] == rest;
      } else {
        var pieces := [[s[0]] + rest[0]] + rest[1..];
        if |rest| > 1 {
          assert pieces[1..] == rest[1..];
        }
      }
    }
  }

  lemma {:induction false} SplitNoSeparator(x: string, sep: char)
    requires sep !in x
    ensures Split(x, sep) == [x]
    decreases |x|
  {
    if x != [] {
      SplitNoSeparator(x[1..], sep);
      assert [x[0]] + x[1..] == x;
    }
  }

  lemma {:induction false} SplitAtSeparator(x: string, sep: char, y: string)
    requires sep !in x
    ensures Split(x + [sep] + y, sep) == [x] + Split(y, sep)
    decreases |x|
  {
    if x == [] {
      assert (x + [sep] + y)[1..] == y;
    } else {
      assert (x + [sep] + y)[1..] == x[1..] + [sep] + y;
      SplitAtSeparator(x[1..], sep, y);
      assert [x[0]] + x[1..] == x;
    }
  }

  /** Splitting a join of separator-free pieces gives the pieces back. */
  lemma {:induction false} SplitJoin(pieces: seq<string>, sep: char)
    requires |pieces| >= 1
    requires forall i :: 0 <= i < |pieces| ==> sep !in pieces[i]
    ensures Split(Join(pieces, sep), sep) == pieces
    decreases |pieces|
  {
    if |pieces| == 1 {
      SplitNoSeparator(pieces[0], sep);
    } else {
      SplitJoin(pieces[1..], sep);
      SplitAtSeparator(pieces[0], sep, Join(pieces[1..], sep));
    }
  }

  /** `key` of `const [key, value] = arg.split("=")`. */
  function Key(arg: string): string {
    Split(arg, '=')[0]
  }

  /** `value` of `const [key, value] = arg.split("=")`: the text between the first and second "=", if any. */
  function Value(arg: string): Option<string> {
    var pieces := Split(arg, '=');
    if |pieces| > 1 then Some(pieces[1]) else None
  }

  /** The value of the last argument whose key is `key`, or None when no argument has that key. */
  function LastValue(args: seq<string>, key: string): Option<Option<string>>
    decreases |args|
  {
    if args == [] then None
    else if Key(args[|args| - 1]) == key then Some(Value(args[|args| - 1]))
    else LastValue(args[..|args| - 1], key)
  }

  lemma LastValueStep(args: seq<string>, i: nat, key: string)
    requires i < |args|
    ensures LastValue(args[..i + 1], key)
         == if Key(args[i]) == key then Some(Value(args[i])) else LastValue(args[..i], key)
  {
    assert args[..i + 1][..i] == args[..i];
  }

  /** Some `--addresses` argument has no "=". */
  predicate HasBareAddresses(args: seq<string>) {
    exists i :: 0 <= i < |args| && Key(args[i]) == "--addresses" && Value(args[i]).None?
  }

  /** What getCommandLineArgs returns for the arguments after the program name. */
  function ParseArguments(args: seq<string>, number: Option<string> -> real): Result<Arguments, ArgumentError> {
    if HasBareAddresses(args) then Err(AddressesWithoutValue)
    else
      match LastValue(args, "--addresses")
      case None => Err(MissingAddresses)
      case Some(addresses) =>
        var threshold := match LastValue(args, "--balanceThreshold")
                         case None => 0.0
                         case Some(v) => number(v);
        var folder := match LastValue(args, "--dataFolder")
                      case None => Some("")
                      case Some(v) => v;
        if addresses.None? then Err(AddressesWithoutValue)
        else Ok(Arguments(Split(addresses.value, ','), threshold, folder))
  }

  /** `process.argv.slice(2)`. */
  function UserArguments(argv: seq<string>): seq<string> {
    if |argv| <= 2 then [] else argv[2..]
  }

  /**
   * getCommandLineArgs over `argv`; `number` stands for JavaScript's
   * `Number(...)` applied to a value (None is `undefined`).
   */
  method GetCommandLineArgs(argv: seq<string>, number: Option<string> -> real)
    returns (r: Result<Arguments, ArgumentError>)
    ensures r == ParseArguments(UserArguments(argv), number)
  {
    var addresses: seq<string> := [];
    var dataFolderPath: Option<string> := Some("");
    var balanceThreshold: real := 0.0;
    var args := UserArguments(argv);

    for i := 0 to |args|
      invariant !HasBareAddresses(args[..i])
      invariant addresses == match LastValue(args[..i], "--addresses")
                             case None => []
                             case Some(v) => if v.Some? then Split(v.value, ',') else []
      invariant LastValue(args[..i], "--addresses").Some? ==> LastValue(args[..i], "--addresses").value.Some?
      invariant dataFolderPath == match LastValue(args[..i], "--dataFolder")
                                  case None => Some("")
                                  case Some(v) => v
      invariant balanceThreshold == match LastValue(args[..i], "--balanceThreshold")
                                    case None => 0.0
                                    case Some(v) => number(v)
    {
      var pieces := Split(args[i], '=');
      var key := pieces[0];
      var value := if |pieces| > 1 then Some(pieces[1]) else None;
      LastValueStep(args, i, "--addresses");
      LastValueStep(args, i, "--dataFolder");
      LastValueStep(args, i, "--balanceThreshold");

      if key == "--addresses" {
        if value.None? {
          assert HasBareAddresses(args) by {
            assert Key(args[i]) == "--addresses" && Value(args[i]).None?;
          }
          return Err(AddressesWithoutValue);
        }
        addresses := Split(value.value, ',');
      }

      if key == "--dataFolder" {
        dataFolderPath := value;
      }

      if key == "--balanceThreshold" {
        balanceThreshold := number(value);
      }

      ghost var seen := args[..i + 1];
      assert !HasBareAddresses(seen) by {
        forall j | 0 <= j < |seen|
          ensures Key(seen[j]) == "--addresses" ==> Value(seen[j]).Some?
        {
          if j < i {
            assert seen[j] == args[..i][j];
          }
        }
      }
    }
    assert args[..|args|] == args;

    if |addresses| == 0 {
      return Err(MissingAddresses);
    }
    return Ok(Arguments(addresses, balanceThreshold, dataFolderPath));
  }

  /** The last occurrence of a key in `xs + ys` is in `ys` when `ys` has one, and in `xs` otherwise. */
  lemma {:induction false} LastValueAppend(xs: seq<string>, ys: seq<string>, key: string)
    ensures LastValue(xs + ys, key) == if LastValue(ys, key).Some? then LastValue(ys, key) else LastValue(xs, key)
    decreases |ys|
  {
    if ys == [] {
      assert xs + ys == xs;
    } else {
      var init := ys[..|ys| - 1];
      assert (xs + ys)[..|xs + ys| - 1] == xs + init;
      LastValueAppend(xs, init, key);
    }
  }

  /** A key recorded as the last one carries the value of an argument with that key. */
  lemma {:induction false} LastValueOccurs(args: seq<string>, key: string)
    requires LastValue(args, key).Some?
    ensures exists i :: 0 <= i < |args| && Key(args[i]) == key && Value(args[i]) == LastValue(args, key).value
    decreases |args|
  {
    if Key(args[|args| - 1]) != key {
      var init := args[..|args| - 1];
      LastValueOccurs(init, key);
      var i :| 0 <= i < |init| && Key(init[i]) == key && Value(init[i]) == LastValue(init, key).value;
      assert args[i] == init[i];
    }
  }

  /** getCommandLineArgs fails exactly when an `--addresses` has no "=" or no `--addresses` is given. */
  lemma ParseFailsIff(args: seq<string>, number: Option<string> -> real)
    ensures ParseArguments(args, number).Err? <==> HasBareAddresses(args) || LastValue(args, "--addresses").None?
    ensures ParseArguments(args, number) == Err(MissingAddresses) <==>
              !HasBareAddresses(args) && LastValue(args, "--addresses").None?
  {
    if !HasBareAddresses(args) && LastValue(args, "--addresses").Some? {
      LastValueOccurs(args, "--addresses");
    }
  }

  /**
   * On success the address list is the value of the last `--addresses`
   * split at commas: it is never empty, no address contains a comma, and
   * joining it with commas gives that value back.
   */
  lemma ParsedAddresses(args: seq<string>, number: Option<string> -> real)
    requires ParseArguments(args, number).Ok?
    ensures |ParseArguments(args, number).value.addresses| >= 1
    ensures forall a :: a in ParseArguments(args, number).value.addresses ==> ',' !in a
    ensures LastValue(args, "--addresses") == Some(Some(Join(ParseArguments(args, number).value.addresses, ',')))
  {
    var value := LastValue(args, "--addresses").value.value;
    JoinSplit(value, ',');
  }

  lemma LastValueSkips(xs: seq<string>, a: string, ys: seq<string>, key: string)
    requires Key(a) != key
    ensures LastValue(xs + [a] + ys, key) == LastValue(xs + ys, key)
  {
    LastValueAppend(xs + [a], ys, key);
    LastValueAppend(xs, [a], key);
    LastValueAppend(xs, ys, key);
    assert [a][..0] == [];
  }

  lemma BareAddressesSkips(xs: seq<string>, a: string, ys: seq<string>)
    requires Key(a) != "--addresses"
    ensures HasBareAddresses(xs + [a] + ys) == HasBareAddresses(xs + ys)
  {
    var with, without := xs + [a] + ys, xs + ys;
    if HasBareAddresses(with) {
      var i :| 0 <= i < |with| && Key(with[i]) == "--addresses" && Value(with[i]).None?;
      if i < |xs| {
        assert with[i] == without[i];
      } else {
        assert with[i] == without[i - 1];
      }
    }
    if HasBareAddresses(without) {
      var i :| 0 <= i < |without| && Key(without[i]) == "--addresses" && Value(without[i]).None?;
      if i < |xs| {
        assert without[i] == with[i];
      } else {
        assert without[i] == with[i + 1];
      }
    }
  }

  /** An argument whose key is none of the three recognised keys changes nothing, wherever it stands. */
  lemma UnknownArgumentIgnored(xs: seq<string>, a: string, ys: seq<string>, number: Option<string> -> real)
    requires Key(a) !in {"--addresses", "--dataFolder", "--balanceThreshold"}
    ensures ParseArguments(xs + [a] + ys, number) == ParseArguments(xs + ys, number)
  {
    LastValueSkips(xs, a, ys, "--addresses");
    LastValueSkips(xs, a, ys, "--dataFolder");
    LastValueSkips(xs, a, ys, "--balanceThreshold");
    BareAddressesSkips(xs, a, ys);
  }

  /** The last occurrence of a recognised key decides its setting. */
  lemma LastOccurrenceWins(xs: seq<string>, a: string, ys: seq<string>, number: Option<string> -> real)
    requires forall y :: y in ys ==> Key(y) != Key(a)
    requires ParseArguments(xs + [a] + ys, number).Ok?
    ensures var parsed := ParseArguments(xs + [a] + ys, number).value;
      && (Key(a) == "--addresses" ==> Value(a).Some? && parsed.addresses == Split(Value(a).value, ','))
      && (Key(a) == "--dataFolder" ==> parsed.dataFolderPath == Value(a))
      && (Key(a) == "--balanceThreshold" ==> parsed.balanceThreshold == number(Value(a)))
  {
    LastValueAppend(xs + [a], ys, Key(a));
    LastValueAppend(xs, [a], Key(a));
    assert [a][..0] == [];
    if LastValue(ys, Key(a)).Some? {
      LastValueOccurs(ys, Key(a));
    }
  }

  /** The key and value of `key=value`, for a key and a value without "=". */
  lemma KeyValue(key: string, value: string)
    requires '=' !in key && '=' !in value
    ensures Key(key + ['='] + value) == key && Value(key + ['='] + value) == Some(value)
  {
    SplitAtSeparator(key, '=', value);
    SplitNoSeparator(value, '=');
  }

  /** `--addresses=` is accepted and gives one empty address, with the default threshold and folder. */
  lemma EmptyAddressValue(number: Option<string> -> real)
    ensures ParseArguments(["--addresses="], number) == Ok(Arguments([""], 0.0, Some("")))
  {
    var arg := "--addresses=";
    assert arg == "--addresses" + ['='] + "";
    KeyValue("--addresses", "");
    assert [arg][..0] == [];
    assert LastValue([arg], "--addresses") == Some(Some(""));
    assert LastValue([arg], "--dataFolder") == None;
    assert LastValue([arg], "--balanceThreshold") == None;
    assert !HasBareAddresses([arg]);
  }

  lemma AddressesThenFolder(first: string, second: string, number: Option<string> -> real)
    requires Key(first) == "--addresses" && Value(first) == Some("x")
    requires Key(second) == "--dataFolder" && Value(second) == Some("a")
    ensures ParseArguments([first, second], number).Ok?
    ensures ParseArguments([first, second], number).value.dataFolderPath == Some("a")
  {
    var args := [first, second];
    assert args[..1] == [first] && [first][..0] == [];
    assert LastValue(args, "--addresses") == Some(Some("x"));
    assert LastValue(args, "--dataFolder") == Some(Some("a"));
    assert !HasBareAddresses(args);
  }

  /** Only the text between the first and second "=" is the value: `--dataFolder=a=b` names the folder "a". */
  lemma ValueStopsAtSecondEquals(number: Option<string> -> real)
    ensures ParseArguments(["--addresses=x", "--dataFolder=a=b"], number).Ok?
    ensures ParseArguments(["--addresses=x", "--dataFolder=a=b"], number).value.dataFolderPath == Some("a")
  {
    assert "--addresses=x" == "--addresses" + ['='] + "x";
    KeyValue("--addresses", "x");
    assert "--dataFolder=a=b" == "--dataFolder" + ['='] + ("a" + ['='] + "b");
    SplitAtSeparator("--dataFolder", '=', "a" + ['='] + "b");
    SplitAtSeparator("a", '=', "b");
    SplitNoSeparator("b", '=');
    AddressesThenFolder("--addresses=x", "--dataFolder=a=b", number);
  }
}
