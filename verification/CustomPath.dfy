/**
 The path read-back of the custom-path tool (`crates/alea-verify/src/custom_path.rs`):
 `m/84'/0'/0` for an array of 32-bit child numbers, and the reading that undoes it.
 */
module CustomPath {
  import opened Wrappers
  import opened VectorReader

  const HARDENED_OFFSET: nat := 0x8000_0000

  type Child = n: int | 0 <= n < 0x1_0000_0000

  function Step(child: Child): string {
    if child >= HARDENED_OFFSET then "/" + (Digits(child - HARDENED_OFFSET) + "'") else "/" + Digits(child)
  }

  /** A step is a slash, a plain decimal number below two to the 31, and a prime where it is hardened. */
  lemma StepSpells(child: Child) returns (t: string)
    ensures Step(child) == "/" + t + if child >= 0x8000_0000 then "'" else ""
    ensures IsNumberText(t) && NumberOf(t) == child % 0x8000_0000
    ensures t[0] != '-' && (t[0] == '0' ==> t == "0")
  {
    hide Digits, Decimal, NumberOf, IsNumberText;
    var n: nat := child % 0x8000_0000;
    assert child >= 0x8000_0000 ==> n == child - 0x8000_0000;
    t := Digits(n);
    DigitsSpell(n);
    DigitsStart(n);
    NumeralsAreNumbers(t);
    assert "/" + t + "" == "/" + t;
  }

  lemma {:induction false} DigitsStart(n: nat)
    ensures IsDigit(Digits(n)[0]) && (Digits(n)[0] == '0' ==> n == 0 && Digits(n) == "0")
  {
    if n >= 10 { DigitsStart(n / 10); }
  }

  function Steps(path: seq<Child>): string {
    if path == [] then "" else Step(path[0]) + Steps(path[1..])
  }

  lemma NextStep(before: string, after: string, path: seq<Child>, i: nat)
    requires i < |path|
    requires var child := path[i];
             after == if child >= HARDENED_OFFSET then before + "/" + Digits(child - HARDENED_OFFSET) + "'"
                      else before + "/" + Digits(child)
    ensures before + Steps(path[i..]) == after + Steps(path[i + 1..])
  {
    hide Digits;
    assert path[i..][1..] == path[i + 1..];
    assert after == before + Step(path[i]);
    Regroup(before, Step(path[i]), Steps(path[i + 1..]));
  }

  lemma Regroup(a: string, b: string, c: string)
    ensures a + (b + c) == (a + b) + c
  {
  }

  method PathString(path: seq<Child>) returns (s: string)
    ensures s == "m" + Steps(path)
  {
    hide Digits, Steps;
    s := "m";
    for i := 0 to |path|
      invariant s + Steps(path[i..]) == "m" + Steps(path)
    {
      var child := path[i];
      var hardened := child >= HARDENED_OFFSET;
      var value := if hardened then child - HARDENED_OFFSET else child;
      ghost var before := s;
      s := s + "/";
      s := s + Digits(value);
      if hardened {
        s := s + "'";
      }
      NextStep(before, s, path, i);
    }
    NoSteps(s, path);
  }

  lemma NoSteps(s: string, path: seq<Child>)
    ensures s + Steps(path[|path|..]) == s
  {
  }

  /** Reads steps from `pos` to the end. */
  function ReadSteps(s: string, pos: nat): Option<seq<nat>>
    requires pos <= |s|
    decreases |s| - pos
  {
    if pos == |s| then Some([])
    else if s[pos] != '/' then None
    else
      var e := DigitsEnd(s, pos + 1);
      var hardened := e < |s| && s[e] == '\'';
      var value := Decimal(s, pos + 1, e) + if hardened then HARDENED_OFFSET else 0;
      match ReadSteps(s, if hardened then e + 1 else e)
      case None => None
      case Some(rest) => Some([value] + rest)
  }

  /** Reading gives back the child numbers: two different paths never read the same. */
  lemma ReadsBack(path: seq<Child>)
    ensures ReadSteps("m" + Steps(path), 1) == Some(path)
  {
    var s := "m" + Steps(path);
    assert At(s, 1, Steps(path));
    ReadsStepsBack(s, 1, path);
  }

  lemma {:induction false} ReadsStepsBack(s: string, pos: nat, path: seq<Child>)
    requires At(s, pos, Steps(path)) && pos + |Steps(path)| == |s|
    ensures ReadSteps(s, pos) == Some(path)
    decreases |path|
  {
    hide At, Step, DigitsEnd, Decimal;
    if path != [] {
      var step := Step(path[0]);
      AtSplit(s, pos, step, Steps(path[1..]));
      StepEnds(s, pos + |step|, path[1..]);
      StepReads(s, pos, path[0]);
      ReadsStepsBack(s, pos + |step|, path[1..]);
      assert [path[0]] + path[1..] == path;
    }
  }

  /** Behind a step stands a slash or the end. */
  lemma StepEnds(s: string, pos: nat, path: seq<Child>)
    requires At(s, pos, Steps(path)) && pos + |Steps(path)| == |s|
    ensures pos < |s| ==> s[pos] == '/'
  {
    if path != [] { assert Steps(path)[0] == s[pos + 0]; }
  }

  lemma StepReads(s: string, pos: nat, child: Child)
    requires At(s, pos, Step(child))
    requires pos + |Step(child)| < |s| ==> s[pos + |Step(child)|] == '/'
    ensures pos < |s| && s[pos] == '/'
    ensures var e := DigitsEnd(s, pos + 1);
      var hardened := e < |s| && s[e] == '\'';
      && child == Decimal(s, pos + 1, e) + (if hardened then HARDENED_OFFSET else 0)
      && pos + |Step(child)| == if hardened then e + 1 else e
  {
    var hardened := child >= HARDENED_OFFSET;
    var digits := Digits(if hardened then child - HARDENED_OFFSET else child);
    if hardened {
      AtCons(s, pos, '/', digits + "'");
      AtSplit(s, pos + 1, digits, "'");
      AtChar(s, pos + 1 + |digits|, '\'');
    } else {
      AtCons(s, pos, '/', digits);
    }
    DigitsAt(s, pos + 1, digits, 0);
    DigitsSpell(if hardened then child - HARDENED_OFFSET else child);
    DecimalAt(s, pos + 1, digits, 0, |digits|);
  }
}
