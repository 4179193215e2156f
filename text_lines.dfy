/**
 * The string operations the three templates apply to a description:
 * `split('\n')`, dropping the empty lines (`line && ...`), and
 * `replace` with the pattern `^<marker>` followed by `\s` repeated, which
 * removes a leading marker and the whitespace after it. Also `join`, used for the skill line.
 */
module TextLines {

  /** The characters the ECMAScript `\s` class matches. */
  predicate IsJsWhitespace(c: char) {
    c in {'\t', '\n', '\U{000B}', '\U{000C}', '\r', ' ', '\U{00A0}', '\U{1680}',
          '\U{2000}', '\U{2001}', '\U{2002}', '\U{2003}', '\U{2004}', '\U{2005}',
          '\U{2006}', '\U{2007}', '\U{2008}', '\U{2009}', '\U{200A}', '\U{2028}',
          '\U{2029}', '\U{202F}', '\U{205F}', '\U{3000}', '\U{FEFF}'}
  }

  /**
   * `s.split(sep)` for a one-character separator: the maximal pieces between
   * separators, so `""` gives `[""]` and a trailing separator a trailing `""`.
   */
  function Split(s: string, sep: char): (r: seq<string>)
    ensures |r| >= 1
    ensures forall i :: 0 <= i < |r| ==> sep !in r[i]
    decreases |s|
  {
    if s == [] then [""]
    else
      var rest := Split(s[1..], sep);
      if s[0] == sep then [""] + rest
      else [[s[0]] + rest[0]] + rest[1..]
  }

  /** `parts.join(sep)`. */
  function Join(parts: seq<string>, sep: string): (r: string)
    ensures |parts| == 1 ==> r == parts[0]
    decreases |parts|
  {
    if |parts| == 0 then ""
    else if |parts| == 1 then parts[0]
    else parts[0] + sep + Join(parts[1..], sep)
  }

  /** Joining two non-empty lists puts one separator between their joins. */
  lemma {:induction false} JoinAppend(a: seq<string>, b: seq<string>, sep: string)
    requires a != [] && b != []
    ensures Join(a + b, sep) == Join(a, sep) + sep + Join(b, sep)
    decreases |a|
  {
    if |a| == 1 {
      assert (a + b)[1..] == b;
    } else {
      assert (a + b)[1..] == a[1..] + b;
      JoinAppend(a[1..], b, sep);
    }
  }

  /** Joining the pieces of a split with the separator gives the string back. */
  lemma {:induction false} JoinSplit(s: string, sep: char)
    ensures Join(Split(s, sep), [sep]) == s
    decreases |s|
  {
    if s != [] {
      var rest := Split(s[1..], sep);
      JoinSplit(s[1..], sep);
      if s[0] == sep {
        assert Split(s, sep) == [""] + rest;
        assert (([""] + rest)[1..]) == rest;
        assert s == [s[0]] + s[1..];
      } else {
        var first := [s[0]] + rest[0];
        assert Split(s, sep) == [first] + rest[1..];
        if |rest| == 1 {
          assert s == [s[0]] + s[1..];
        } else {
          assert ([first] + rest[1..])[1..] == rest[1..];
          assert Join(rest, [sep]) == rest[0] + [sep] + Join(rest[1..], [sep]);
          assert s == [s[0]] + s[1..];
        }
      }
    }
  }

  /** A piece without the separator splits to itself. */
  lemma {:induction false} SplitPlain(p: string, sep: char)
    requires sep !in p
    ensures Split(p, sep) == [p]
    decreases |p|
  {
    if p != [] {
      assert sep !in p[1..] by {
        forall k | 0 <= k < |p[1..]| ensures p[1..][k] != sep { assert p[1..][k] == p[k + 1]; }
      }
      SplitPlain(p[1..], sep);
      assert [p[0]] + p[1..] == p;
    }
  }

  /** A separator-free piece followed by the separator splits off as one piece. */
  lemma {:induction false} SplitPrefix(p: string, sep: char, t: string)
    requires sep !in p
    ensures Split(p + [sep] + t, sep) == [p] + Split(t, sep)
    decreases |p|
  {
    var s := p + [sep] + t;
    if p == [] {
      assert s[1..] == t;
    } else {
      assert s[1..] == p[1..] + [sep] + t;
      assert sep !in p[1..] by {
        forall k | 0 <= k < |p[1..]| ensures p[1..][k] != sep { assert p[1..][k] == p[k + 1]; }
      }
      SplitPrefix(p[1..], sep, t);
      assert [p[0]] + p[1..] == p;
    }
  }

  /** Splitting a join of separator-free pieces gives the pieces back. */
  lemma {:induction false} SplitJoin(parts: seq<string>, sep: char)
    requires |parts| >= 1
    requires forall i :: 0 <= i < |parts| ==> sep !in parts[i]
    ensures Split(Join(parts, [sep]), sep) == parts
    decreases |parts|
  {
    if |parts| == 1 {
      SplitPlain(parts[0], sep);
    } else {
      SplitJoin(parts[1..], sep);
      SplitPrefix(parts[0], sep, Join(parts[1..], [sep]));
      assert [parts[0]] + parts[1..] == parts;
    }
  }

  /** `lines.filter(line => line)`: the empty strings dropped, the rest in order. */
  function NonEmpty(lines: seq<string>): (r: seq<string>)
    ensures |r| <= |lines|
    ensures forall i :: 0 <= i < |r| ==> r[i] != ""
    ensures forall x :: x in r <==> x in lines && x != ""
    decreases |lines|
  {
    if lines == [] then []
    else (if lines[0] == "" then [] else [lines[0]]) + NonEmpty(lines[1..])
  }

  /** Filtering distributes over concatenation, so the kept lines keep their order. */
  lemma {:induction false} NonEmptyAppend(a: seq<string>, b: seq<string>)
    ensures NonEmpty(a + b) == NonEmpty(a) + NonEmpty(b)
    decreases |a|
  {
    if a == [] {
      assert a + b == b;
    } else {
      assert (a + b)[1..] == a[1..] + b;
      NonEmptyAppend(a[1..], b);
      var h := if a[0] == "" then [] else [a[0]];
      calc {
        NonEmpty(a + b);
        h + NonEmpty(a[1..] + b);
        h + (NonEmpty(a[1..]) + NonEmpty(b));
        (h + NonEmpty(a[1..])) + NonEmpty(b);
      }
    }
  }

  /** Lines none of which is empty are all kept. */
  lemma {:induction false} NonEmptyKeepsAll(lines: seq<string>)
    requires forall i :: 0 <= i < |lines| ==> lines[i] != ""
    ensures NonEmpty(lines) == lines
    decreases |lines|
  {
    if lines != [] {
      NonEmptyKeepsAll(lines[1..]);
      assert [lines[0]] + lines[1..] == lines;
    }
  }

  /** `s` with its leading whitespace removed. */
  function TrimStart(s: string): (r: string)
    ensures |r| <= |s| && r == s[|s| - |r|..]
    ensures forall i :: 0 <= i < |s| - |r| ==> IsJsWhitespace(s[i])
    ensures r == [] || !IsJsWhitespace(r[0])
    decreases |s|
  {
    if s != [] && IsJsWhitespace(s[0]) then TrimStart(s[1..]) else s
  }

  /**
   * `line.replace` with the pattern `^<marker>` then any run of `\s`: when the line starts with the marker,
   * the marker and every whitespace character after it go; otherwise the line
   * is kept as it is.
   */
  function StripBullet(line: string, marker: string): (r: string)
    ensures !(marker <= line) ==> r == line
    ensures marker <= line ==>
      && |r| <= |line| - |marker|
      && r == line[|line| - |r|..]
      && (forall i :: |marker| <= i < |line| - |r| ==> IsJsWhitespace(line[i]))
      && (r == [] || !IsJsWhitespace(r[0]))
  {
    if marker <= line then TrimStart(line[|marker|..]) else line
  }

  /**
   * The list items of one description: the non-empty `\n` pieces, in order,
   * each with one leading marker and the whitespace after it removed. Only
   * the first marker goes; an empty list item stays when the line was only a
   * marker.
   */
  function BulletLines(description: string, marker: string): (r: seq<string>)
    ensures |r| == |NonEmpty(Split(description, '\n'))|
    ensures forall i :: 0 <= i < |r| ==> r[i] == StripBullet(NonEmpty(Split(description, '\n'))[i], marker)
    ensures forall i :: 0 <= i < |r| ==> '\n' !in r[i]
  {
    var lines := NonEmpty(Split(description, '\n'));
    var r := seq(|lines|, i requires 0 <= i < |lines| => StripBullet(lines[i], marker));
    assert forall i :: 0 <= i < |r| ==> '\n' !in r[i] by {
      forall i | 0 <= i < |r| ensures '\n' !in r[i] {
        assert lines[i] in Split(description, '\n');
        NoNewlineSuffix(lines[i], |lines[i]| - |r[i]|);
      }
    }
    r
  }

  /**
   * Writing non-empty lines joined by `\n` and reading them back gives the
   * same lines, each stripped once.
   */
  lemma BulletLinesOfJoin(lines: seq<string>, marker: string)
    requires |lines| >= 1
    requires forall i :: 0 <= i < |lines| ==> lines[i] != "" && '\n' !in lines[i]
    ensures |BulletLines(Join(lines, "\n"), marker)| == |lines|
    ensures forall i :: 0 <= i < |lines| ==> BulletLines(Join(lines, "\n"), marker)[i] == StripBullet(lines[i], marker)
  {
    SplitJoin(lines, '\n');
    NonEmptyKeepsAll(lines);
  }

  /** Three non-empty lines joined by `\n` read back as the three lines, each stripped once. */
  lemma ThreeLines(l1: string, l2: string, l3: string, marker: string)
    requires l1 != "" && l2 != "" && l3 != ""
    requires '\n' !in l1 && '\n' !in l2 && '\n' !in l3
    ensures BulletLines(l1 + "\n" + l2 + "\n" + l3, marker)
         == [StripBullet(l1, marker), StripBullet(l2, marker), StripBullet(l3, marker)]
  {
    var lines := [l1, l2, l3];
    JoinAppend([l1], [l2, l3], "\n");
    JoinAppend([l2], [l3], "\n");
    assert Join(lines, "\n") == l1 + "\n" + l2 + "\n" + l3;
    BulletLinesOfJoin(lines, marker);
  }

  /** A suffix of a newline-free string has no newline. */
  lemma NoNewlineSuffix(s: string, k: nat)
    requires k <= |s| && '\n' !in s
    ensures '\n' !in s[k..]
  {
    forall j | 0 <= j < |s| - k ensures s[k..][j] != '\n' {
      assert s[k..][j] == s[k + j];
    }
  }

  /** A concatenation of newline-free strings has no newline. */
  lemma NoNewlineConcat(a: string, b: string)
    requires '\n' !in a && '\n' !in b
    ensures '\n' !in a + b
  {
    forall k | 0 <= k < |a + b| ensures (a + b)[k] != '\n' {
      if k < |a| { assert (a + b)[k] == a[k]; } else { assert (a + b)[k] == b[k - |a|]; }
    }
  }
}
