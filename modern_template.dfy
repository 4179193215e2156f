/**
 * The modern template (components/ModernTemplate.tsx): the shared page with
 * `formatDate` using `month: 'short'`, and a bullet pattern whose marker is
 * the three characters `â€¢` (U+00E2 U+20AC U+00A2), the UTF-8 bytes of `•`
 * read as Windows-1252. A real `•` at the head of a line is therefore kept.
 */
module ModernTemplate {
  import opened TextLines
  import opened TemplateCommon
  import opened ResumeTypes

  /** The marker of the strip pattern in this file. */
  const Marker: string := "\U{00E2}\U{20AC}\U{00A2}"

  /** The modern page; `shortDate` stands for the `month: 'short'` locale formatter. */
  function Page(data: ResumeData, shortDate: string -> string): (v: ResumeView)
    ensures |v.experience| == |data.experience|
    ensures forall i :: 0 <= i < |v.experience| ==>
      v.experience[i].bullets == BulletLines(data.experience[i].description, Marker)
  {
    Render(data, Marker, shortDate)
  }

  /** A line starting with the real bullet U+2022 is shown unchanged, bullet included. */
  lemma RealBulletKept(line: string)
    requires line != [] && line[0] == '\U{2022}'
    ensures StripBullet(line, Marker) == line
  {
    assert Marker[0] != line[0];
  }

  /** The three-character marker and the whitespace after it are what this template strips. */
  lemma MarkerStripped(t: string)
    requires t != [] && !IsJsWhitespace(t[0])
    ensures StripBullet(Marker + " " + t, Marker) == t
  {
    var line := Marker + " " + t;
    assert Marker <= line;
    assert line[|Marker|..] == " " + t;
    assert (" " + t)[1..] == t;
  }

  /**
   * Lines written as a real bullet, a space and a text, as in the seed
   * description, show with the bullet still in front.
   */
  lemma RealBulletLinesKept(t1: string, t2: string, t3: string)
    requires '\n' !in t1 && '\n' !in t2 && '\n' !in t3
    ensures var b := "\U{2022} ";
      BulletLines((b + t1) + "\n" + (b + t2) + "\n" + (b + t3), Marker) == [b + t1, b + t2, b + t3]
  {
    var b := "\U{2022} ";
    assert '\n' !in b by { assert b == ['\U{2022}', ' ']; }
    NoNewlineConcat(b, t1);
    NoNewlineConcat(b, t2);
    NoNewlineConcat(b, t3);
    RealBulletKept(b + t1);
    RealBulletKept(b + t2);
    RealBulletKept(b + t3);
    ThreeLines(b + t1, b + t2, b + t3, Marker);
  }
}
