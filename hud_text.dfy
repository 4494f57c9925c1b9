/** The text of the debug HUD (src/debug.ts, `Debug.updateHUD`): every
    entry of the value record becomes a line `key: value`, and the lines are
    joined with newlines. */
module HudText {
  import opened LogBuffer

  /** JavaScript's conversion of a value inside a template literal.
      JavaScript's Number-to-string conversion is not modelled; it is the
      parameter `numText`. */
  function Show(v: Value, numText: real -> string): (r: string)
    ensures v.Str? ==> r == v.s
    ensures v.Bool? ==> (r == "true" <==> v.b) && (r == "false" <==> !v.b)
    ensures v.Null? ==> r == "null"
    ensures v.Num? ==> r == numText(v.x)
    ensures v.Bool? || v.Null? ==> '\n' !in r
  {
    match v
    case Num(x) => numText(x)
    case Str(s) => s
    case Bool(b) => if b then "true" else "false"
    case Null => "null"
  }

  /** One HUD line, `${k}: ${v}`. */
  function HudLine(k: string, v: Value, numText: real -> string): (r: string)
    ensures |r| == |k| + 2 + |Show(v, numText)|
    ensures r[..|k|] == k && r[|k|..|k| + 2] == ": " && r[|k| + 2..] == Show(v, numText)
    ensures '\n' !in r <==> '\n' !in k && '\n' !in Show(v, numText)
  {
    k + ": " + Show(v, numText)
  }

  /** The HUD lines, one per record entry, in the order of the entries. */
  function HudLines(values: seq<(string, Value)>, numText: real -> string): (r: seq<string>)
    ensures |r| == |values|
    ensures forall i :: 0 <= i < |r| ==> r[i] == values[i].0 + ": " + Show(values[i].1, numText)
  {
    if values == [] then []
    else [HudLine(values[0].0, values[0].1, numText)] + HudLines(values[1..], numText)
  }

  /** `Array.prototype.join("\n")`. */
  function JoinLines(ls: seq<string>): (r: string)
    ensures ls == [] ==> r == ""
    ensures |ls| == 1 ==> r == ls[0]
  {
    if |ls| == 0 then ""
    else if |ls| == 1 then ls[0]
    else ls[0] + "\n" + JoinLines(ls[1..])
  }

  /** The inverse of `JoinLines`: the pieces of a text between newlines.
      Like `String.prototype.split("\n")`, it always yields at least one
      piece. */
  function SplitLines(s: string): (r: seq<string>)
    ensures |r| >= 1
  {
    if |s| == 0 then [""]
    else
      var rest := SplitLines(s[1..]);
      if s[0] == '\n' then [""] + rest
      else [[s[0]] + rest[0]] + rest[1..]
  }

  /** The whole HUD text. */
  function RenderHud(values: seq<(string, Value)>, numText: real -> string): (r: string)
    ensures values == [] ==> r == ""
  {
    JoinLines(HudLines(values, numText))
  }

  /** The HUD text of a non-empty record starts with the first entry's key
      and the separator ": ". */
  lemma RenderHudStartsWithFirstKey(values: seq<(string, Value)>, numText: real -> string)
    requires values != []
    ensures |values[0].0| + 2 <= |RenderHud(values, numText)|
    ensures RenderHud(values, numText)[..|values[0].0| + 2] == values[0].0 + ": "
  {
    var ls := HudLines(values, numText);
    var k := values[0].0;
    JoinLinesShape(ls);
    PrefixOfPrefix(JoinLines(ls), ls[0], |k| + 2);
  }

  lemma PrefixOfPrefix(a: string, b: string, n: nat)
    requires |b| <= |a| && a[..|b|] == b && n <= |b|
    ensures a[..n] == b[..n]
  {
    assert forall i :: 0 <= i < n ==> a[i] == a[..|b|][i];
  }

  /** The joined text starts with the first line, a newline follows it when
      there is a second line, and there is one newline between each two
      lines: exactly |ls| - 1 newlines when no line holds one itself. */
  lemma {:induction false} JoinLinesShape(ls: seq<string>)
    ensures ls != [] ==> |ls[0]| <= |JoinLines(ls)| && JoinLines(ls)[..|ls[0]|] == ls[0]
    ensures |ls| >= 2 ==> |ls[0]| < |JoinLines(ls)| && JoinLines(ls)[|ls[0]|] == '\n'
    ensures multiset(JoinLines(ls))['\n'] >= |ls| - 1
    ensures ls != [] && (forall i :: 0 <= i < |ls| ==> '\n' !in ls[i]) ==> multiset(JoinLines(ls))['\n'] == |ls| - 1
  {
    if |ls| >= 2 {
      JoinLinesShape(ls[1..]);
      var r := JoinLines(ls);
      assert r == ls[0] + ("\n" + JoinLines(ls[1..]));
      assert multiset(r) == multiset(ls[0]) + multiset("\n") + multiset(JoinLines(ls[1..]));
      if forall i :: 0 <= i < |ls| ==> '\n' !in ls[i] {
        assert '\n' !in multiset(ls[0]);
        assert forall i :: 0 <= i < |ls[1..]| ==> '\n' !in ls[1..][i] by {
          forall i | 0 <= i < |ls[1..]| ensures '\n' !in ls[1..][i] {
            assert ls[1..][i] == ls[i + 1];
          }
        }
      }
    } else if |ls| == 1 {
      assert JoinLines(ls) == ls[0];
      if '\n' !in ls[0] {
        assert '\n' !in multiset(ls[0]);
        assert multiset(ls[0])['\n'] == 0;
      }
    }
  }

  lemma {:induction false} SplitSingleLine(a: string)
    requires '\n' !in a
    ensures SplitLines(a) == [a]
  {
    if |a| > 0 {
      assert '\n' !in a[1..];
      SplitSingleLine(a[1..]);
      assert [a[0]] + a[1..] == a;
    }
  }

  lemma {:induction false} SplitFirstLine(a: string, b: string)
    requires '\n' !in a
    ensures SplitLines(a + "\n" + b) == [a] + SplitLines(b)
    decreases |a|
  {
    var s := a + "\n" + b;
    if |a| == 0 {
      assert s[0] == '\n' && s[1..] == b;
    } else {
      assert s[0] == a[0] && s[1..] == a[1..] + "\n" + b;
      assert '\n' !in a[1..];
      SplitFirstLine(a[1..], b);
      assert [a[0]] + a[1..] == a;
    }
  }

  /** Splitting joined lines that hold no newline gives the lines back. */
  lemma {:induction false} SplitJoin(ls: seq<string>)
    requires |ls| > 0
    requires forall i :: 0 <= i < |ls| ==> '\n' !in ls[i]
    ensures SplitLines(JoinLines(ls)) == ls
  {
    if |ls| == 1 {
      SplitSingleLine(ls[0]);
    } else {
      SplitFirstLine(ls[0], JoinLines(ls[1..]));
      SplitJoin(ls[1..]);
      assert [ls[0]] + ls[1..] == ls;
    }
  }

  lemma JoinFirst(l: string, ls: seq<string>)
    requires ls != []
    ensures JoinLines([l] + ls) == l + "\n" + JoinLines(ls)
  {
    assert ([l] + ls)[1..] == ls;
  }

  lemma JoinPrepend(c: char, ls: seq<string>)
    requires ls != []
    ensures JoinLines([[c] + ls[0]] + ls[1..]) == [c] + JoinLines(ls)
  {
    var first := [c] + ls[0];
    if |ls| == 1 {
      assert [first] + ls[1..] == [first];
    } else {
      JoinFirst(first, ls[1..]);
      JoinFirst(ls[0], ls[1..]);
      assert ls == [ls[0]] + ls[1..];
    }
  }

  /** Joining the pieces of any text gives the text back. */
  lemma {:induction false} JoinSplit(s: string)
    ensures JoinLines(SplitLines(s)) == s
  {
    if |s| > 0 {
      var rest := SplitLines(s[1..]);
      JoinSplit(s[1..]);
      if s[0] == '\n' {
        JoinFirst("", rest);
      } else {
        JoinPrepend(s[0], rest);
      }
      assert s == [s[0]] + s[1..];
    }
  }

  /** The HUD text is empty exactly when the record is empty: every line
      holds at least the separator ": ". */
  lemma RenderHudEmptyIff(values: seq<(string, Value)>, numText: real -> string)
    ensures RenderHud(values, numText) == "" <==> values == []
  {
    var ls := HudLines(values, numText);
    if values != [] {
      assert |ls[0]| >= 2;
      if |ls| > 1 {
        assert JoinLines(ls) == ls[0] + "\n" + JoinLines(ls[1..]);
      }
    }
  }

  /** When no key and no shown value holds a newline, the HUD text has
      exactly one line per record entry, the i-th being `key: value`. */
  lemma RenderHudLines(values: seq<(string, Value)>, numText: real -> string)
    requires values != []
    requires forall i :: 0 <= i < |values| ==> '\n' !in values[i].0 && '\n' !in Show(values[i].1, numText)
    ensures |SplitLines(RenderHud(values, numText))| == |values|
    ensures forall i :: 0 <= i < |values| ==>
      SplitLines(RenderHud(values, numText))[i] == values[i].0 + ": " + Show(values[i].1, numText)
  {
    var ls := HudLines(values, numText);
    forall i | 0 <= i < |ls| ensures '\n' !in ls[i] {
      assert ls[i] == values[i].0 + ": " + Show(values[i].1, numText);
    }
    SplitJoin(ls);
  }
}
