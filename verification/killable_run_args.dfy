/** The argument handling of the `killable-run` executor: quoting of forwarded
    arguments, removal of the executor's own flags from the unparsed command
    line, and interpolation of arguments into each command. */
module KillableRunArgs {
  import opened Wrappers
  import opened Text
  import opened Records

  /** The executor's own option names, never forwarded to the commands. */
  const PropKeys: seq<string> := [
    "command", "commands", "color", "no-color", "parallel", "no-parallel",
    "readyWhen", "cwd", "args", "envFile", "__unparsed__", "env", "usePty",
    "streamOutput", "verbose", "forwardAllArgs", "tty"]

  /** A value produced by the argument parser. Arrays and objects carry the
      text `toString` gives them. */
  datatype ArgValue = Str(s: string) | Num(n: int) | Bool(b: bool) | Obj(text: string) | Null {
    predicate Truthy()
    {
      match this
      case Str(s) => s != ""
      case Num(n) => n != 0
      case Bool(b) => b
      case Obj(_) => true
      case Null => false
    }

    /** `String(value)`, as `toString` and template literals render it. */
    function Render(): string
    {
      match this
      case Str(s) => s
      case Num(n) => IntToString(n)
      case Bool(b) => if b then "true" else "false"
      case Obj(t) => t
      case Null => "null"
    }

    /** `typeof value === 'object'`, which holds for `null` too. */
    predicate IsObject()
    {
      Obj? || Null?
    }
  }

  /** `a === b`: two objects are never known to be the same reference. */
  predicate StrictEquals(a: ArgValue, b: ArgValue)
  {
    !a.Obj? && a == b
  }

  predicate IsQuote(c: char)
  {
    c == '\'' || c == '"'
  }

  // ---------------------------------------------------------------------
  // wrapArgIntoQuotesIfNeeded

  /** `wrapArgIntoQuotesIfNeeded(arg)`. */
  function WrapArgIntoQuotesIfNeeded(arg: string): (r: string)
  {
    if '=' in arg then
      var parts := Split(arg, '=');
      SplitSeveral(arg, '=');
      var key := parts[0];
      var value := parts[1];
      if StartsWith(key, "--") && ' ' in value && !(|value| > 0 && IsQuote(value[0])) then
        key + "=\"" + value + "\""
      else arg
    else if ' ' in arg && !IsQuote(arg[0]) then
      "\"" + arg + "\""
    else arg
  }

  /** `--key=value` whose value holds a space and starts with no quote gets the
      value quoted; anything after a second '=' is lost. */
  lemma WrapOption(key: string, value: string, tail: string)
    requires StartsWith(key, "--") && '=' !in key && '=' !in value
    requires ' ' in value && !IsQuote(value[0])
    requires tail == "" || tail[0] == '='
    ensures WrapArgIntoQuotesIfNeeded(key + "=" + value + tail) == key + "=\"" + value + "\""
  {
    var arg := key + "=" + value + tail;
    assert arg == key + ['='] + (value + tail);
    SplitAfterPiece(key, value + tail, '=');
    SplitFirstPiece(value + tail, '=');
    assert (value + tail)[..|value|] == value;
    IndexOfCharAt(value + tail, '=', |value|);
  }

  /** The index of the first occurrence is fixed by the prefix before it and
      the character at it. */
  lemma {:induction false} IndexOfCharAt(s: string, c: char, k: nat)
    requires k <= |s| && c !in s[..k] && (k < |s| ==> s[k] == c)
    ensures IndexOfChar(s, c) == k
  {
    if k > 0 {
      assert s[0] == s[..k][0];
      assert s[1..][..k - 1] == s[..k][1..];
      IndexOfCharAt(s[1..], c, k - 1);
    }
  }

  /** A bare argument holding a space and starting with no quote is wrapped
      in double quotes. */
  lemma WrapBare(arg: string)
    requires '=' !in arg && ' ' in arg && !IsQuote(arg[0])
    ensures WrapArgIntoQuotesIfNeeded(arg) == "\"" + arg + "\""
  {
  }

  /** Any other argument is returned unchanged: no space, or a leading quote. */
  lemma WrapUnchanged(arg: string)
    requires ' ' !in arg || (|arg| > 0 && IsQuote(arg[0]))
    ensures WrapArgIntoQuotesIfNeeded(arg) == arg
  {
    if '=' in arg {
      SplitSeveral(arg, '=');
      var value := Split(arg, '=')[1];
      if ' ' in value {
        SplitPieceChars(arg, '=', 1, ' ');
        SplitFirstPiece(arg, '=');
        var key := Split(arg, '=')[0];
        if |key| > 0 {
          assert key[0] == arg[0];
        }
      }
    }
  }

  /** Quoting twice changes nothing more than quoting once. */
  lemma WrapIdempotent(arg: string)
    ensures WrapArgIntoQuotesIfNeeded(WrapArgIntoQuotesIfNeeded(arg)) == WrapArgIntoQuotesIfNeeded(arg)
  {
    var once := WrapArgIntoQuotesIfNeeded(arg);
    if '=' in arg {
      SplitSeveral(arg, '=');
      var parts := Split(arg, '=');
      var key := parts[0];
      var value := parts[1];
      if once != arg {
        assert once == key + "=\"" + value + "\"";
        var quoted := "\"" + value + "\"";
        assert '=' !in quoted;
        assert once == key + ['='] + quoted;
        SplitAfterPiece(key, quoted, '=');
        SplitNoSeparator(quoted, '=');
        assert Split(once, '=') == [key, quoted];
      }
    } else if once != arg {
      assert once[0] == '"';
      assert '=' !in once;
    }
  }

  // ---------------------------------------------------------------------
  // filterPropKeysFromUnParsedOptions

  /** The option name of `--name=value` or `--name.sub=value`. */
  function OptionName(element: string): string
    requires StartsWith(element, "--")
  {
    Split(Split(element[2..], '=')[0], '.')[0]
  }

  /** The unparsed element names one of the executor's own options. */
  predicate Reserved(element: string)
  {
    StartsWith(element, "--") &&
    if '=' in element then OptionName(element) in PropKeys else element[2..] in PropKeys
  }

  /** A reserved bare flag swallows the next element when the parsed value of
      that option is truthy and renders the same as the element. */
  predicate SwallowsNext(flag: string, next: string, parsed: Record<ArgValue>)
    requires StartsWith(flag, "--")
  {
    var v := Get(parsed, flag[2..]);
    v.Some? && v.value.Truthy() && next == v.value.Render()
  }

  /** What `filterPropKeysFromUnParsedOptions` keeps of `xs`. */
  function Filtered(xs: seq<string>, parsed: Record<ArgValue>): (r: seq<string>)
    decreases |xs|
  {
    if |xs| == 0 then []
    else
      var e := xs[0];
      if !Reserved(e) then [e] + Filtered(xs[1..], parsed)
      else if '=' !in e && |xs| > 1 && SwallowsNext(e, xs[1], parsed) then Filtered(xs[2..], parsed)
      else Filtered(xs[1..], parsed)
  }

  /** `filterPropKeysFromUnParsedOptions(xs, parsed)`. */
  method FilterPropKeysFromUnParsedOptions(xs: seq<string>, parsed: Record<ArgValue>) returns (kept: seq<string>)
    ensures kept == Filtered(xs, parsed)
  {
    kept := [];
    var i := 0;
    while i < |xs|
      invariant i <= |xs|
      invariant kept + Filtered(xs[i..], parsed) == Filtered(xs, parsed)
    {
      var element := xs[i];
      if StartsWith(element, "--") {
        var key := element[2..];
        if '=' in element {
          if OptionName(element) !in PropKeys {
            FilteredKeep(xs, i, parsed, kept);
            kept := kept + [element];
          } else {
            FilteredDrop(xs, i, parsed);
          }
        } else {
          if key in PropKeys {
            if i + 1 < |xs| && SwallowsNext(element, xs[i + 1], parsed) {
              FilteredSwallow(xs, i, parsed);
              i := i + 1;
            } else {
              FilteredDrop(xs, i, parsed);
            }
          } else {
            FilteredKeep(xs, i, parsed, kept);
            kept := kept + [element];
          }
        }
      } else {
        FilteredKeep(xs, i, parsed, kept);
        kept := kept + [element];
      }
      i := i + 1;
    }
    assert xs[i..] == [];
  }

  /** An element that is not reserved is kept. */
  lemma FilteredKeep(xs: seq<string>, i: nat, parsed: Record<ArgValue>, kept: seq<string>)
    requires i < |xs| && !Reserved(xs[i])
    requires kept + Filtered(xs[i..], parsed) == Filtered(xs, parsed)
    ensures Filtered(xs[i..], parsed) == [xs[i]] + Filtered(xs[i + 1..], parsed)
    ensures kept + [xs[i]] + Filtered(xs[i + 1..], parsed) == Filtered(xs, parsed)
  {
    assert xs[i..][1..] == xs[i + 1..];
    assert kept + [xs[i]] + Filtered(xs[i + 1..], parsed) == kept + ([xs[i]] + Filtered(xs[i + 1..], parsed));
  }

  /** A reserved flag swallows the value that follows it. */
  lemma FilteredSwallow(xs: seq<string>, i: nat, parsed: Record<ArgValue>)
    requires i + 1 < |xs| && Reserved(xs[i]) && '=' !in xs[i] && SwallowsNext(xs[i], xs[i + 1], parsed)
    ensures Filtered(xs[i..], parsed) == Filtered(xs[i + 2..], parsed)
  {
    assert xs[i..][2..] == xs[i + 2..];
  }

  /** Any other reserved element is dropped alone. */
  lemma FilteredDrop(xs: seq<string>, i: nat, parsed: Record<ArgValue>)
    requires i < |xs| && Reserved(xs[i])
    requires !('=' !in xs[i] && i + 1 < |xs| && SwallowsNext(xs[i], xs[i + 1], parsed))
    ensures Filtered(xs[i..], parsed) == Filtered(xs[i + 1..], parsed)
  {
    assert xs[i..][1..] == xs[i + 1..];
    if i + 1 < |xs| {
      assert xs[i..][1] == xs[i + 1];
    }
  }

  /** `a` is `b` with some elements removed, order kept. */
  predicate IsSubsequence(a: seq<string>, b: seq<string>)
    decreases |b|
  {
    |a| == 0 || (|b| > 0 && ((a[0] == b[0] && IsSubsequence(a[1..], b[1..])) || IsSubsequence(a, b[1..])))
  }

  /** The kept elements are a subsequence of the input, never longer. */
  lemma {:induction false} FilteredIsSubsequence(xs: seq<string>, parsed: Record<ArgValue>)
    ensures IsSubsequence(Filtered(xs, parsed), xs)
    ensures |Filtered(xs, parsed)| <= |xs|
    decreases |xs|
  {
    if |xs| > 0 {
      var e := xs[0];
      if !Reserved(e) {
        FilteredIsSubsequence(xs[1..], parsed);
      } else if '=' !in e && |xs| > 1 && SwallowsNext(e, xs[1], parsed) {
        FilteredIsSubsequence(xs[2..], parsed);
        SubsequenceSkip(Filtered(xs[2..], parsed), xs[1..]);
        assert xs[1..][1..] == xs[2..];
        SubsequenceSkip(Filtered(xs[2..], parsed), xs);
      } else {
        FilteredIsSubsequence(xs[1..], parsed);
        SubsequenceSkip(Filtered(xs[1..], parsed), xs);
      }
    }
  }

  lemma SubsequenceSkip(a: seq<string>, b: seq<string>)
    requires |b| > 0 && IsSubsequence(a, b[1..])
    ensures IsSubsequence(a, b)
  {
  }

  /** No element naming one of the executor's own options survives. */
  lemma {:induction false} FilteredHasNoReserved(xs: seq<string>, parsed: Record<ArgValue>)
    ensures forall i :: 0 <= i < |Filtered(xs, parsed)| ==> !Reserved(Filtered(xs, parsed)[i])
    decreases |xs|
  {
    if |xs| > 0 {
      FilteredHasNoReserved(xs[1..], parsed);
      if |xs| > 1 {
        FilteredHasNoReserved(xs[2..], parsed);
      }
    }
  }

  /** The input comes back whole exactly when it names none of the
      executor's own options. */
  lemma {:induction false} FilteredUnchanged(xs: seq<string>, parsed: Record<ArgValue>)
    ensures Filtered(xs, parsed) == xs <==> forall i :: 0 <= i < |xs| ==> !Reserved(xs[i])
    decreases |xs|
  {
    if |xs| > 0 {
      FilteredUnchanged(xs[1..], parsed);
      FilteredIsSubsequence(xs[1..], parsed);
      if |xs| > 1 {
        FilteredIsSubsequence(xs[2..], parsed);
      }
      if !Reserved(xs[0]) {
        assert (forall i :: 0 <= i < |xs| ==> !Reserved(xs[i])) <==>
          (forall i :: 0 <= i < |xs[1..]| ==> !Reserved(xs[1..][i]));
      }
    }
  }

  // ---------------------------------------------------------------------
  // interpolateArgsIntoCommand

  const ArgsMarker := "{args."

  /** `command.replace(/{args\.([^}]+)}/g, ...)`: each `{args.name}` (a
      non-empty name up to the first '}') becomes the parsed value of `name`
      or the empty string; the scan resumes after the replaced text. */
  function ReplaceArgs(command: string, parsed: Record<ArgValue>): (r: string)
    decreases |command|
  {
    if |command| == 0 then ""
    else
      var k := PlaceholderLength(command);
      if k > 0 then
        PlaceholderValue(parsed, command[6..6 + k]) + ReplaceArgs(command[6 + k + 1..], parsed)
      else [command[0]] + ReplaceArgs(command[1..], parsed)
  }

  /** The length of the name of a placeholder `{args.name}` at the start of
      the command, or 0 when none starts there. */
  function PlaceholderLength(command: string): (k: nat)
    ensures k > 0 ==> 6 + k < |command| && command[0] == '{' && command[6 + k] == '}'
  {
    if StartsWith(command, ArgsMarker) then
      var k := IndexOfChar(command[6..], '}');
      if k < |command[6..]| then k else 0
    else 0
  }

  /** A command without placeholders is left as it is. */
  lemma {:induction false} ReplaceArgsNoMarker(command: string, parsed: Record<ArgValue>)
    requires '{' !in command
    ensures ReplaceArgs(command, parsed) == command
    decreases |command|
  {
    if |command| > 0 {
      ReplaceArgsNoMarker(command[1..], parsed);
      assert [command[0]] + command[1..] == command;
    }
  }

  /** Text without '{' before the rest of a command is copied as it is. */
  lemma {:induction false} ReplaceArgsPrefix(prefix: string, tail: string, parsed: Record<ArgValue>)
    requires '{' !in prefix
    ensures ReplaceArgs(prefix + tail, parsed) == prefix + ReplaceArgs(tail, parsed)
    decreases |prefix|
  {
    if |prefix| > 0 {
      assert '{' !in prefix[1..] by {
        assert forall c :: c in prefix[1..] ==> c in prefix;
      }
      ReplaceArgsPrefix(prefix[1..], tail, parsed);
      ReplaceArgsPrefixStep(prefix, tail, parsed);
    } else {
      assert prefix + tail == tail;
    }
  }

  /** The step of `ReplaceArgsPrefix`: the first character is copied. */
  lemma ReplaceArgsPrefixStep(prefix: string, tail: string, parsed: Record<ArgValue>)
    requires |prefix| > 0 && prefix[0] != '{'
    requires ReplaceArgs(prefix[1..] + tail, parsed) == prefix[1..] + ReplaceArgs(tail, parsed)
    ensures ReplaceArgs(prefix + tail, parsed) == prefix + ReplaceArgs(tail, parsed)
  {
    ConsSplit(prefix, tail);
    ReplaceArgsPlainChar(prefix[0], prefix[1..] + tail, parsed);
    ConsJoin(prefix, ReplaceArgs(tail, parsed));
  }

  lemma ConsSplit(prefix: string, tail: string)
    requires |prefix| > 0
    ensures prefix + tail == [prefix[0]] + (prefix[1..] + tail)
  {
  }

  lemma ConsJoin(prefix: string, r: string)
    requires |prefix| > 0
    ensures [prefix[0]] + (prefix[1..] + r) == prefix + r
  {
  }

  /** A first character other than '{' is copied. */
  lemma ReplaceArgsPlainChar(c: char, rest: string, parsed: Record<ArgValue>)
    requires c != '{'
    ensures ReplaceArgs([c] + rest, parsed) == [c] + ReplaceArgs(rest, parsed)
  {
    var command := [c] + rest;
    assert command[0] == c && command[1..] == rest;
    assert PlaceholderLength(command) == 0;
  }

  /** A placeholder is replaced by the parsed value of its name, or removed
      when the name has no value. */
  lemma ReplaceArgsAtMarker(name: string, suffix: string, parsed: Record<ArgValue>)
    requires |name| > 0 && '}' !in name
    ensures ReplaceArgs(ArgsMarker + name + "}" + suffix, parsed) ==
      PlaceholderValue(parsed, name) + ReplaceArgs(suffix, parsed)
  {
    var command := ArgsMarker + name + "}" + suffix;
    var rest := command[6..];
    assert rest == name + ['}'] + suffix;
    assert rest[..|name|] == name;
    IndexOfCharAt(rest, '}', |name|);
    assert command[..6] == ArgsMarker;
    assert StartsWith(command, ArgsMarker);
    assert PlaceholderLength(command) == |name|;
    assert command[6..6 + |name|] == name;
    assert command[6 + |name| + 1..] == suffix;
  }

  /** The forwarded unknown options: those whose value is not an object and
      that the parser left untouched, as `--name=value`, quoted if needed. */
  function UnknownOptionArgs(unknown: Record<ArgValue>, parsed: Record<ArgValue>): seq<string>
  {
    if |unknown| == 0 then []
    else
      var (k, v) := unknown[0];
      var rest := UnknownOptionArgs(unknown[1..], parsed);
      var p := Get(parsed, k);
      if !v.IsObject() && p.Some? && StrictEquals(p.value, v) then
        [WrapArgIntoQuotesIfNeeded("--" + k + "=" + v.Render())] + rest
      else rest
  }

  /** Each argument quoted if needed. */
  function WrapAll(args: seq<string>): (r: seq<string>)
    ensures |r| == |args|
    ensures forall i :: 0 <= i < |args| ==> r[i] == WrapArgIntoQuotesIfNeeded(args[i])
  {
    if |args| == 0 then [] else [WrapArgIntoQuotesIfNeeded(args[0])] + WrapAll(args[1..])
  }

  /** `interpolateArgsIntoCommand`; `None` is the `undefined` returned when
      there is no placeholder and arguments are not forwarded. */
  function InterpolateArgsIntoCommand(command: string, unknown: Record<ArgValue>, parsed: Record<ArgValue>,
                                      unparsed: seq<string>, forwardAllArgs: bool): (r: Option<string>)
    ensures r.None? <==> !Contains(command, ArgsMarker) && !forwardAllArgs
    ensures r.Some? && !Contains(command, ArgsMarker) ==> StartsWith(r.value, command)
    ensures r.Some? && !Contains(command, ArgsMarker) && |unknown| == 0 ==> r.value == command
  {
    if Contains(command, ArgsMarker) then Some(ReplaceArgs(command, parsed))
    else if forwardAllArgs then
      if |unknown| > 0 then
        var known := Join(UnknownOptionArgs(unknown, parsed), " ");
        var args := if known != "" then " " + known else "";
        var kept := Filtered(unparsed, parsed);
        var rest := WrapAll(kept);
        var args' := if |unparsed| > 0 && |kept| > 0 then args + " " + Join(rest, " ") else args;
        Some(command + args')
      else Some(command)
    else None
  }

  /** The parsed value a placeholder stands for, or the empty string. */
  function PlaceholderValue(parsed: Record<ArgValue>, name: string): string
  {
    var v := Get(parsed, name);
    if v.Some? then v.value.Render() else ""
  }

  /** A command holding a placeholder after text without '{' has it replaced,
      whether or not arguments are forwarded. */
  lemma InterpolatePlaceholder(prefix: string, name: string, suffix: string, unknown: Record<ArgValue>,
                               parsed: Record<ArgValue>, unparsed: seq<string>, forwardAllArgs: bool)
    requires '{' !in prefix && |name| > 0 && '}' !in name
    ensures InterpolateArgsIntoCommand(prefix + ArgsMarker + name + "}" + suffix, unknown, parsed, unparsed, forwardAllArgs) ==
      Some(prefix + PlaceholderValue(parsed, name) + ReplaceArgs(suffix, parsed))
  {
    var command := prefix + ArgsMarker + name + "}" + suffix;
    PlaceholderFound(prefix, name, suffix);
    assert InterpolateArgsIntoCommand(command, unknown, parsed, unparsed, forwardAllArgs) == Some(ReplaceArgs(command, parsed));
    ReplacePlaceholder(prefix, name, suffix, parsed);
  }

  lemma PlaceholderFound(prefix: string, name: string, suffix: string)
    ensures Contains(prefix + ArgsMarker + name + "}" + suffix, ArgsMarker)
  {
    var tail := ArgsMarker + name + "}" + suffix;
    assert prefix + ArgsMarker + name + "}" + suffix == prefix + tail;
    assert ArgsMarker <= tail;
    ContainsAfter(prefix, tail, ArgsMarker);
  }

  lemma ReplacePlaceholder(prefix: string, name: string, suffix: string, parsed: Record<ArgValue>)
    requires '{' !in prefix && |name| > 0 && '}' !in name
    ensures ReplaceArgs(prefix + ArgsMarker + name + "}" + suffix, parsed) ==
      prefix + PlaceholderValue(parsed, name) + ReplaceArgs(suffix, parsed)
  {
    var tail := ArgsMarker + name + "}" + suffix;
    assert prefix + ArgsMarker + name + "}" + suffix == prefix + tail;
    ReplaceArgsPrefix(prefix, tail, parsed);
    ReplaceArgsAtMarker(name, suffix, parsed);
    var value := PlaceholderValue(parsed, name);
    assert prefix + (value + ReplaceArgs(suffix, parsed)) == prefix + value + ReplaceArgs(suffix, parsed);
  }

  lemma {:induction false} ContainsAfter(prefix: string, s: string, sub: string)
    requires sub <= s
    ensures Contains(prefix + s, sub)
    decreases |prefix|
  {
    if |prefix| > 0 {
      ContainsAfter(prefix[1..], s, sub);
      assert (prefix + s)[1..] == prefix[1..] + s;
    } else {
      assert prefix + s == s;
    }
  }
}
