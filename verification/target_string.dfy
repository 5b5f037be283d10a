/** `targetStringToTarget` of the firebase-cypress package: turns a web-server
    or emulator command such as `nx run app:serve:production` into an Nx target
    (project, target, configuration). */
module TargetString {
  import opened Wrappers
  import opened Text

  /** An Nx `Target`; `configuration` is `undefined` when the string has only
      two ':'-segments. */
  datatype Target = Target(project: string, target: string, configuration: Option<string>)

  /** The message of the parse error. */
  function UnableToParse(s: string): string
  {
    "Unable to parse target: \"" + s + "\" to a valid target"
  }

  /** `parts.find(part => part.includes(':'))`: the first part holding a ':'. */
  function FindWithColon(parts: seq<string>): (r: Option<string>)
    ensures r.None? <==> forall i :: 0 <= i < |parts| ==> ':' !in parts[i]
    ensures r.Some? ==> ':' in r.value
    ensures r.Some? ==> exists i :: 0 <= i < |parts| && parts[i] == r.value && (forall j :: 0 <= j < i ==> ':' !in parts[j])
  {
    if |parts| == 0 then None
    else if ':' in parts[0] then Some(parts[0])
    else
      var r := FindWithColon(parts[1..]);
      assert r.Some? ==> exists i :: 0 <= i < |parts| && parts[i] == r.value && (forall j :: 0 <= j < i ==> ':' !in parts[j]) by {
        if r.Some? {
          var i :| 0 <= i < |parts[1..]| && parts[1..][i] == r.value && (forall j :: 0 <= j < i ==> ':' !in parts[1..][j]);
          assert parts[i + 1] == r.value;
          assert forall j :: 0 <= j < i + 1 ==> ':' !in parts[j] by {
            forall j | 0 <= j < i + 1
              ensures ':' !in parts[j]
            {
              if j > 0 {
                assert parts[j] == parts[1..][j - 1];
              }
            }
          }
        }
      }
      r
  }

  /** `const [project, target, configuration] = s.split(':')` on a string that
      holds a ':': the first three segments, the third one possibly missing. */
  function Destructure(s: string): (t: Target)
    requires ':' in s
  {
    SplitSeveral(s, ':');
    var parts := Split(s, ':');
    Target(parts[0], parts[1], if |parts| >= 3 then Some(parts[2]) else None)
  }

  /** `targetStringToTarget(s)`. */
  function Parse(s: string): (r: Result<Target>)
  {
    if ' ' in s then
      match FindWithColon(Split(s, ' '))
      case None => Err(Error(UnableToParse(s)))
      case Some(token) => Ok(Destructure(token))
    else if ':' in s then Ok(Destructure(s))
    else Err(Error(UnableToParse(s)))
  }

  /** Some space-separated token holds a ':' exactly when the string does. */
  lemma TokenWithColon(s: string)
    ensures FindWithColon(Split(s, ' ')).Some? <==> ':' in s
  {
    var parts := Split(s, ' ');
    if ':' in s {
      SplitKeepsChar(s, ' ', ':');
    } else {
      forall i | 0 <= i < |parts|
        ensures ':' !in parts[i]
      {
        if ':' in parts[i] {
          SplitPieceChars(s, ' ', i, ':');
        }
      }
    }
  }

  /** Parsing fails exactly for strings without a ':', with the same message
      whether or not the string holds spaces. */
  lemma ParseFailsWithoutColon(s: string)
    ensures Parse(s).Err? <==> ':' !in s
    ensures Parse(s).Err? ==> Parse(s).failure == Error(UnableToParse(s))
  {
    TokenWithColon(s);
  }

  /** Two segments without spaces round-trip, with no configuration; empty
      segments are accepted. */
  lemma ParseProjectTarget(p: string, t: string)
    requires ':' !in p && ':' !in t && ' ' !in p && ' ' !in t
    ensures Parse(p + ":" + t) == Ok(Target(p, t, None))
  {
    SplitJoin([p, t], ':');
    assert Join([p, t], [':']) == p + ":" + t;
    assert ' ' !in p + ":" + t;
  }

  /** A third segment becomes the configuration. */
  lemma ParseWithConfiguration(p: string, t: string, c: string)
    requires ':' !in p && ':' !in t && ':' !in c
    requires ' ' !in p && ' ' !in t && ' ' !in c
    ensures Parse(p + ":" + t + ":" + c) == Ok(Target(p, t, Some(c)))
  {
    var s := p + ":" + t + ":" + c;
    assert s == p + [':'] + (t + [':'] + c);
    SplitAfterPiece(p, t + [':'] + c, ':');
    SplitAfterPiece(t, c, ':');
    SplitNoSeparator(c, ':');
    assert ' ' !in s;
  }

  /** Segments after the third are dropped. */
  lemma ParseDropsExtraSegments(p: string, t: string, c: string, extra: string)
    requires ':' !in p && ':' !in t && ':' !in c
    requires ' ' !in p && ' ' !in t && ' ' !in c && ' ' !in extra
    ensures Parse(p + ":" + t + ":" + c + ":" + extra) == Ok(Target(p, t, Some(c)))
  {
    var s := p + ":" + t + ":" + c + ":" + extra;
    assert s == p + [':'] + (t + [':'] + (c + [':'] + extra));
    SplitAfterPiece(p, t + [':'] + (c + [':'] + extra), ':');
    SplitAfterPiece(t, c + [':'] + extra, ':');
    SplitAfterPiece(c, extra, ':');
    assert ' ' !in s;
  }

  /** With spaces, the first token holding a ':' is parsed as if it were the
      whole string. */
  lemma ParseWithSpaces(before: seq<string>, token: string, after: seq<string>)
    requires |before| + |after| > 0
    requires forall i :: 0 <= i < |before| ==> ' ' !in before[i] && ':' !in before[i]
    requires forall i :: 0 <= i < |after| ==> ' ' !in after[i]
    requires ' ' !in token && ':' in token
    ensures Parse(Join(before + [token] + after, " ")) == Parse(token)
  {
    var tokens := before + [token] + after;
    var s := Join(tokens, " ");
    TokensWithoutSpace(before, token, after);
    SplitJoin(tokens, ' ');
    if ' ' !in s {
      SplitNoSeparator(s, ' ');
      assert false;
    }
    FindAfterColonFree(before, token, after);
  }

  lemma TokensWithoutSpace(before: seq<string>, token: string, after: seq<string>)
    requires forall i :: 0 <= i < |before| ==> ' ' !in before[i]
    requires forall i :: 0 <= i < |after| ==> ' ' !in after[i]
    requires ' ' !in token
    ensures forall i :: 0 <= i < |before + [token] + after| ==> ' ' !in (before + [token] + after)[i]
  {
    var tokens := before + [token] + after;
    forall i | 0 <= i < |tokens|
      ensures ' ' !in tokens[i]
    {
      if i < |before| {
        assert tokens[i] == before[i];
      } else if i > |before| {
        assert tokens[i] == after[i - |before| - 1];
      }
    }
  }

  lemma {:induction false} FindAfterColonFree(before: seq<string>, token: string, after: seq<string>)
    requires forall i :: 0 <= i < |before| ==> ':' !in before[i]
    requires ':' in token
    ensures FindWithColon(before + [token] + after) == Some(token)
  {
    if |before| > 0 {
      FindAfterColonFree(before[1..], token, after);
      assert (before + [token] + after)[1..] == before[1..] + [token] + after;
    }
  }

  /** An empty project segment is not rejected. */
  lemma ParseEmptyProject()
    ensures Parse(":serve") == Ok(Target("", "serve", None))
  {
    ParseProjectTarget("", "serve");
    assert "" + ":" + "serve" == ":serve";
  }
}
