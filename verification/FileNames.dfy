/** The names under which uploads are stored. */
module FileNames {

  const THUMB: string := "thumb.jpg"

  function ReplaceChar(s: string, c: char): (r: string)
    ensures |r| == |s|
  {
    if s == "" then "" else [if s[0] == c then '_' else s[0]] + ReplaceChar(s[1..], c)
  }

  /** Replace every "..", scanning from the left. */
  function ReplaceDots(s: string): string {
    if |s| >= 2 && s[0] == '.' && s[1] == '.' then "_" + ReplaceDots(s[2..])
    else if s == "" then ""
    else [s[0]] + ReplaceDots(s[1..])
  }

  function Sanitize(name: string, fallback: string): string {
    var r := ReplaceDots(ReplaceChar(ReplaceChar(name, '\\'), '/'));
    if r == "" then fallback else r
  }

  predicate HasDots(s: string) {
    exists i | 0 <= i < |s| - 1 :: s[i] == '.' && s[i + 1] == '.'
  }

  lemma {:induction false} ReplaceCharRemoves(s: string, c: char, d: char)
    requires c != '_'
    ensures c !in ReplaceChar(s, c)
    ensures d != '_' && d !in s ==> d !in ReplaceChar(s, c)
    ensures d != c && d in s ==> d in ReplaceChar(s, c)
    ensures if c in s then '_' in ReplaceChar(s, c) else ReplaceChar(s, c) == s
  {
    if s != "" {
      ReplaceCharRemoves(s[1..], c, d);
      InTail(s, c);
      InTail(s, d);
      InTail(ReplaceChar(s, c), c);
      InTail(ReplaceChar(s, c), d);
      InTail(ReplaceChar(s, c), '_');
      assert ReplaceChar(s, c)[1..] == ReplaceChar(s[1..], c) && s == [s[0]] + s[1..];
    }
  }

  lemma InTail(s: string, d: char)
    requires s != ""
    ensures d in s <==> d == s[0] || d in s[1..]
  {
    assert s == [s[0]] + s[1..];
  }

  lemma {:induction false} ReplaceDotsRemoves(s: string, d: char)
    ensures !HasDots(ReplaceDots(s))
    ensures d != '_' && d !in s ==> d !in ReplaceDots(s)
    ensures d != '.' && d in s ==> d in ReplaceDots(s)
    ensures if HasDots(s) then '_' in ReplaceDots(s) else ReplaceDots(s) == s
    ensures s != "" ==> ReplaceDots(s) != "" && (ReplaceDots(s)[0] == '.' ==> s[0] == '.' && (|s| == 1 || s[1] != '.'))
    decreases |s|
  {
    var r := ReplaceDots(s);
    if |s| >= 2 && s[0] == '.' && s[1] == '.' {
      ReplaceDotsRemoves(s[2..], d);
      var rest := ReplaceDots(s[2..]);
      assert r[1..] == rest && r[0] == '_' && HasDots(s);
      InTail(s, d);
      InTail(s[1..], d);
      InTail(r, d);
      forall i | 0 <= i < |r| - 1 ensures !(r[i] == '.' && r[i + 1] == '.') {
        assert i > 0 ==> r[i] == rest[i - 1] && r[i + 1] == rest[i];
      }
    } else if s != "" {
      ReplaceDotsRemoves(s[1..], d);
      var rest := ReplaceDots(s[1..]);
      assert r[1..] == rest && r[0] == s[0] && s == [s[0]] + s[1..];
      InTail(s, d);
      InTail(r, d);
      InTail(r, '_');
      DotsInTail(s);
      forall i | 0 <= i < |r| - 1 ensures !(r[i] == '.' && r[i + 1] == '.') {
        assert r[i + 1] == rest[i];
        assert i > 0 ==> r[i] == rest[i - 1];
      }
    }
  }

  lemma DotsInTail(s: string)
    requires s != "" && !(|s| >= 2 && s[0] == '.' && s[1] == '.')
    ensures HasDots(s) <==> HasDots(s[1..])
  {
    if HasDots(s) {
      var i :| 0 <= i < |s| - 1 && s[i] == '.' && s[i + 1] == '.';
      assert s[1..][i - 1] == '.' && s[1..][i] == '.';
    }
    if HasDots(s[1..]) {
      var i :| 0 <= i < |s[1..]| - 1 && s[1..][i] == '.' && s[1..][i + 1] == '.';
      assert s[i + 1] == '.' && s[i + 2] == '.';
    }
  }

  predicate Clean(name: string) {
    '/' !in name && '\\' !in name && !HasDots(name)
  }

  /** The result is clean; a clean name is kept, and any other leaves an underscore behind. */
  lemma SanitizedNameIsClean(name: string, fallback: string)
    requires Clean(fallback) && fallback != ""
    ensures var r := Sanitize(name, fallback);
            && Clean(r) && r != ""
            && (Clean(name) && name != "" ==> r == name)
            && (!Clean(name) ==> '_' in r)
  {
    var a := ReplaceChar(name, '\\');
    var b := ReplaceChar(a, '/');
    ReplaceCharRemoves(name, '\\', '/');
    ReplaceCharRemoves(a, '/', '\\');
    ReplaceCharRemoves(a, '/', '_');
    ReplaceDotsRemoves(b, '/');
    ReplaceDotsRemoves(b, '\\');
    ReplaceDotsRemoves(b, '_');
  }

  /** An upload shares the thumbnail's path exactly when its given name is the thumbnail's. */
  lemma OnlyThumbNameClashes(name: string, fallback: string)
    requires Clean(fallback) && fallback != "" && fallback != THUMB
    ensures Sanitize(name, fallback) == THUMB <==> name == THUMB
  {
    SanitizedNameIsClean(name, fallback);
    assert Clean(THUMB) by {
      assert THUMB == ['t', 'h', 'u', 'm', 'b', '.', 'j', 'p', 'g'];
    }
    if name == "" {
      assert Sanitize(name, fallback) == fallback;
    }
  }
}
