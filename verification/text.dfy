// ASCII string helpers: lower-casing, trimming, and the "location/model" keys
// under which every part of the system finds a target.
module Text {
  function LowerChar(c: char): char {
    if 'A' <= c <= 'Z' then (c as int + 32) as char else c
  }

  function Lower(s: string): (r: string)
    ensures |r| == |s|
  {
    seq(|s|, i requires 0 <= i < |s| => LowerChar(s[i]))
  }

  predicate EqualFold(a: string, b: string) {
    Lower(a) == Lower(b)
  }

  predicate IsSpace(c: char) {
    c == ' ' || '\t' <= c <= '\r'
  }

  function TrimLeft(s: string): string {
    if s != "" && IsSpace(s[0]) then TrimLeft(s[1..]) else s
  }

  function TrimRight(s: string): string {
    if s != "" && IsSpace(s[|s| - 1]) then TrimRight(s[..|s| - 1]) else s
  }

  function Trim(s: string): string {
    TrimRight(TrimLeft(s))
  }

  function Key(location: string, model: string): string {
    Lower(location) + "/" + Lower(model)
  }

  function ProjectKey(project: string, location: string, model: string): string {
    Lower(project) + "/" + Key(location, model)
  }

  lemma {:induction false} LowerChars(s: string)
    ensures '/' in Lower(s) <==> '/' in s
    ensures '?' in Lower(s) <==> '?' in s
    ensures Lower(Lower(s)) == Lower(s)
    ensures Lower(s) == "" <==> s == ""
  {
    if '/' in s {
      var i :| 0 <= i < |s| && s[i] == '/';
      assert Lower(s)[i] == '/';
    }
    if '?' in s {
      var i :| 0 <= i < |s| && s[i] == '?';
      assert Lower(s)[i] == '?';
    }
  }

  // Two strings are the same up to case when they differ at most by 32 in the
  // codes of letters: A-Z are the codes 65 to 90, a-z are 97 to 122.
  lemma {:induction false} EqualFoldIff(a: string, b: string)
    ensures EqualFold(a, b) <==>
      |a| == |b| && forall i | 0 <= i < |a| ::
        || a[i] == b[i]
        || (65 <= a[i] as int <= 90 && b[i] as int == a[i] as int + 32)
        || (65 <= b[i] as int <= 90 && a[i] as int == b[i] as int + 32)
  {
    if EqualFold(a, b) {
      forall i | 0 <= i < |a| ensures LowerChar(a[i]) == LowerChar(b[i]) {
        assert Lower(a)[i] == Lower(b)[i];
      }
    }
  }

  // Trimming takes all the white space off both ends, and nothing else.
  lemma {:induction false} TrimIs(s: string) returns (front: string, back: string)
    ensures s == front + Trim(s) + back
    ensures forall c | c in front + back :: c in [' ', '\t', '\n', 11 as char, 12 as char, '\r']
    ensures Trim(s) != "" ==> Trim(s)[0] !in [' ', '\t', '\n', 11 as char, 12 as char, '\r']
    ensures Trim(s) != "" ==> Trim(s)[|Trim(s)| - 1] !in [' ', '\t', '\n', 11 as char, 12 as char, '\r']
  {
    front := LeftIs(s);
    back := RightIs(TrimLeft(s));
    hide TrimLeft, TrimRight;
  }

  lemma {:induction false} LeftIs(s: string) returns (front: string)
    ensures s == front + TrimLeft(s) && forall c | c in front :: IsSpace(c)
    ensures TrimLeft(s) != "" ==> !IsSpace(TrimLeft(s)[0])
  {
    front := "";
    if s != "" && IsSpace(s[0]) {
      var rest := LeftIs(s[1..]);
      front := [s[0]] + rest;
    }
  }

  lemma {:induction false} RightIs(s: string) returns (back: string)
    ensures s == TrimRight(s) + back && forall c | c in back :: IsSpace(c)
    ensures TrimRight(s) != "" ==> !IsSpace(TrimRight(s)[|TrimRight(s)| - 1])
  {
    back := "";
    if s != "" && IsSpace(s[|s| - 1]) {
      var rest := RightIs(s[..|s| - 1]);
      back := rest + [s[|s| - 1]];
    }
  }

  lemma {:induction false} LowerConcat(a: string, b: string)
    ensures Lower(a + b) == Lower(a) + Lower(b)
  {
  }

  // A key reads back as its two parts when neither contains the separator.
  lemma {:induction false} KeyInjective(a: string, b: string, c: string, d: string)
    requires '/' !in a && '/' !in c
    requires a + "/" + b == c + "/" + d
    ensures a == c && b == d
  {
    var s := a + "/" + b;
    assert s[|a|] == '/' && s[|c|] == '/';
    assert forall i | 0 <= i < |a| :: s[i] != '/';
    assert forall i | 0 <= i < |c| :: s[i] != '/';
    assert a == s[..|a|] && b == s[|a| + 1..];
    assert c == s[..|c|] && d == s[|c| + 1..];
  }

  // Two targets never share a key, up to case.
  lemma {:induction false} SameKeyIff(location: string, model: string, location': string, model': string)
    requires '/' !in location && '/' !in location'
    ensures Key(location, model) == Key(location', model') <==> (EqualFold(location, location') && EqualFold(model, model'))
  {
    LowerChars(location);
    LowerChars(location');
    if Key(location, model) == Key(location', model') {
      KeyInjective(Lower(location), Lower(model), Lower(location'), Lower(model'));
    }
  }
}
