/**
 * The classic template (components/ResumePreview.tsx): the shared page with
 * bullet marker `•` (U+2022) and `formatDate` using `month: 'short'`.
 */
module ClassicTemplate {
  import opened TextLines
  import opened TemplateCommon
  import opened ResumeTypes

  /** The marker of `/^•\s*` in this file. */
  const Bullet: string := "\U{2022}"

  /** The classic page; `shortDate` stands for `toLocaleDateString('en-US', { month: 'short', year: 'numeric' })`. */
  function Page(data: ResumeData, shortDate: string -> string): (v: ResumeView)
    ensures |v.experience| == |data.experience|
    ensures forall i :: 0 <= i < |v.experience| ==>
      v.experience[i].bullets == BulletLines(data.experience[i].description, Bullet)
  {
    Render(data, Bullet, shortDate)
  }

  /**
   * Lines written as a bullet, a space and a text, as in the seed description
   * (`SeedDescription`), show as the texts alone.
   */
  lemma BulletedLinesStripped(t1: string, t2: string, t3: string)
    requires t1 != [] && !IsJsWhitespace(t1[0]) && '\n' !in t1
    requires t2 != [] && !IsJsWhitespace(t2[0]) && '\n' !in t2
    requires t3 != [] && !IsJsWhitespace(t3[0]) && '\n' !in t3
    ensures BulletLines((Bullet + " " + t1) + "\n" + (Bullet + " " + t2) + "\n" + (Bullet + " " + t3), Bullet) == [t1, t2, t3]
  {
    var b := Bullet + " ";
    assert '\n' !in b by { assert b == ['\U{2022}', ' ']; }
    NoNewlineConcat(b, t1);
    NoNewlineConcat(b, t2);
    NoNewlineConcat(b, t3);
    BulletThenText(t1);
    BulletThenText(t2);
    BulletThenText(t3);
    ThreeLines(b + t1, b + t2, b + t3, Bullet);
  }

  /** A bullet, a space and text that does not start with whitespace leave just the text. */
  lemma BulletThenText(t: string)
    requires t != [] && !IsJsWhitespace(t[0])
    ensures StripBullet(Bullet + " " + t, Bullet) == t
  {
    var line := Bullet + " " + t;
    assert Bullet <= line;
    assert line[|Bullet|..] == " " + t;
    assert (" " + t)[1..] == t;
  }

  /** Only the first bullet goes: `• •x` shows as `•x`. */
  lemma OnlyFirstBulletStripped(t: string)
    ensures StripBullet(Bullet + " " + Bullet + t, Bullet) == Bullet + t
  {
    var line := Bullet + " " + Bullet + t;
    assert Bullet <= line;
    assert line[|Bullet|..] == " " + (Bullet + t);
    assert (" " + (Bullet + t))[1..] == Bullet + t;
    assert (Bullet + t)[0] == '\U{2022}';
    assert !IsJsWhitespace('\U{2022}');
  }

  /** A line of blanks is not empty, so it stays as a list item of its own. */
  lemma BlankLineKept()
    ensures BulletLines("first" + "\n" + "  " + "\n" + "last", Bullet) == ["first", "  ", "last"]
  {
    ThreeLines("first", "  ", "last", Bullet);
    assert !(Bullet <= "first") && !(Bullet <= "  ") && !(Bullet <= "last");
  }
}
