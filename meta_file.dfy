/**
 * The reader of a bitmap-font description file: lines of space-separated
 * `key=value` tokens. The first line gives the padding around every glyph
 * as four comma-separated ints, the second the line height and atlas width,
 * two more lines are skipped, and every further line describes one
 * character by id.
 *
 * Only the integer and string parts are modelled. The screen-space values
 * that the source computes in `double` (texture coordinates, quad sizes,
 * offsets, advances, the aspect ratio and per-pixel sizes) are left out;
 * a glyph keeps the integer pixel values they are computed from. The file
 * is the sequence `lines` with a read position, and an exception that ends
 * loading is a `Threw` result.
 */
module FontMeshCreator {
  import opened JavaLang

  const PadTop: nat := 0
  const PadLeft: nat := 1
  const PadBottom: nat := 2
  const PadRight: nat := 3
  const DesiredPadding: int := 3

  /** The id of the space character, which is measured but never stored. */
  const SpaceAscii: int := 32

  const Splitter: char := ' '
  const NumberSeparator: char := ','
  const PaddingVariable := "padding"

  /** The integer data of one character of the atlas: the pixel values its screen-space data is computed from. */
  datatype Glyph = Glyph(id: int, x: int, y: int, width: int, height: int, xoffset: int, yoffset: int, xadvance: int)

  /** What one character line yields: no id, the space character's advance, or a glyph. */
  datatype CharLine = NoId | Space(advance: int) | GlyphLine(glyph: Glyph)

  // ---------------------------------------------------------------------------
  // Tokens of one line
  // ---------------------------------------------------------------------------

  /** Whether a space-separated token is a pair: splitting it at '=' gives exactly two parts. */
  predicate IsPair(part: string)
  {
    |Split(part, Literal('='))| == 2
  }

  function KeyOf(part: string): string
    requires IsPair(part)
  {
    Split(part, Literal('='))[0]
  }

  function ValueOf(part: string): string
    requires IsPair(part)
  {
    Split(part, Literal('='))[1]
  }

  /** The map the tokens `parts` leave behind, stored from left to right. */
  function StoreAll(parts: seq<string>): map<string, string>
  {
    if parts == [] then map[]
    else
      var last := parts[|parts| - 1];
      var m := StoreAll(parts[..|parts| - 1]);
      if IsPair(last) then m[KeyOf(last) := ValueOf(last)] else m
  }

  /** The variables of one line. */
  function Pairs(line: string): map<string, string>
  {
    StoreAll(Split(line, Literal(Splitter)))
  }

  /** `values.get(key)`: None is null. */
  function Get(values: map<string, string>, key: string): Option<string>
  {
    if key in values then Some(values[key]) else None
  }

  /** The ints of a list of number texts, in order; None when one of them is not an int. */
  function IntList(numbers: seq<string>): (r: Option<seq<int>>)
    ensures r.Some? ==> |r.value| == |numbers|
  {
    if numbers == [] then Some([])
    else
      match IntList(numbers[..|numbers| - 1])
      case None => None
      case Some(front) =>
        match ParseInt(numbers[|numbers| - 1])
        case None => None
        case Some(v) => Some(front + [v])
  }

  /**
   * One character line: no entry when its id is missing or not a number; for
   * the space character, its advance, which must be a number; otherwise a
   * glyph, whose seven further fields must all be numbers. A field that is
   * not is a NumberFormatException, which ends loading. Width and height
   * lose the padding beyond the desired padding on both sides, in 32-bit
   * arithmetic.
   */
  function CharacterLine(values: map<string, string>, paddingWidth: int, paddingHeight: int): (r: Result<CharLine>)
    ensures ParseIntOrNull(Get(values, "id")).None? ==> r == Ok(NoId)
    ensures r.Ok? && r.value.GlyphLine? ==>
      && Some(r.value.glyph.id) == ParseIntOrNull(Get(values, "id"))
      && r.value.glyph.id != SpaceAscii
  {
    match ParseIntOrNull(Get(values, "id"))
    case None => Ok(NoId)
    case Some(id) =>
      if id == SpaceAscii then
        match ParseIntOrNull(Get(values, "xadvance"))
        case None => Threw(NumberFormat)
        case Some(a) => Ok(Space(Wrap(a - paddingWidth)))
      else
        var x, y := ParseIntOrNull(Get(values, "x")), ParseIntOrNull(Get(values, "y"));
        var w, h := ParseIntOrNull(Get(values, "width")), ParseIntOrNull(Get(values, "height"));
        var xo, yo := ParseIntOrNull(Get(values, "xoffset")), ParseIntOrNull(Get(values, "yoffset"));
        var xa := ParseIntOrNull(Get(values, "xadvance"));
        if x.None? || y.None? || w.None? || h.None? || xo.None? || yo.None? || xa.None? then Threw(NumberFormat)
        else
          Ok(GlyphLine(Glyph(id, x.value, y.value,
                             Wrap(w.value - Wrap(paddingWidth - 2 * DesiredPadding)),
                             Wrap(h.value - Wrap(paddingHeight - 2 * DesiredPadding)),
                             xo.value, yo.value, xa.value)))
  }

  /**
   * The character table and space advance after reading the character
   * lines `rest` in order, from `metaData` and `spaceAdvance`; the first
   * exception ends it.
   */
  function LoadGlyphs(rest: seq<string>, metaData: map<int, Glyph>, spaceAdvance: int,
                      paddingWidth: int, paddingHeight: int): Result<(map<int, Glyph>, int)>
  {
    if rest == [] then Ok((metaData, spaceAdvance))
    else
      match CharacterLine(Pairs(rest[0]), paddingWidth, paddingHeight)
      case Threw(e) => Threw(e)
      case Ok(NoId) => LoadGlyphs(rest[1..], metaData, spaceAdvance, paddingWidth, paddingHeight)
      case Ok(Space(a)) => LoadGlyphs(rest[1..], metaData, a, paddingWidth, paddingHeight)
      case Ok(GlyphLine(g)) => LoadGlyphs(rest[1..], metaData[g.id := g], spaceAdvance, paddingWidth, paddingHeight)
  }

  /** The variables after reading the line at `pos`: none at the end of the file. */
  function LineValues(lines: seq<string>, pos: nat): map<string, string>
  {
    if pos < |lines| then Pairs(lines[pos]) else map[]
  }

  /** A variable of a line as ints, when it is present and every comma-separated part is an int. */
  function VariableInts(values: map<string, string>, variable: string): Option<seq<int>>
  {
    if variable in values then IntList(Split(values[variable], Literal(NumberSeparator))) else None
  }

  function Min(a: nat, b: nat): nat { if a < b then a else b }

  /** The total horizontal padding of the four sides: left plus right, in `int` arithmetic. */
  function HorizontalPadding(sides: seq<int>): int
    requires |sides| >= 4
  {
    Wrap(sides[PadLeft] + sides[PadRight])
  }

  /** The total vertical padding of the four sides: top plus bottom, in `int` arithmetic. */
  function VerticalPadding(sides: seq<int>): int
    requires |sides| >= 4
  {
    Wrap(sides[PadTop] + sides[PadBottom])
  }

  /** The padding of a file's first line, when it holds at least four ints. */
  function HeaderPadding(lines: seq<string>): (r: Option<seq<int>>)
    ensures r.Some? ==> |lines| >= 1 && |r.value| >= 4
  {
    var sides := VariableInts(LineValues(lines, 0), PaddingVariable);
    if sides.Some? && |sides.value| >= 4 then sides else None
  }

  /** The line height of a file's second line, when it is an int. */
  function HeaderLineHeight(lines: seq<string>): (r: Option<int>)
    ensures r.Some? ==> |lines| >= 2
  {
    ParseIntOrNull(Get(LineValues(lines, 1), "lineHeight"))
  }

  /** Whether the first two lines load: the padding, and the line height and the atlas width as ints. */
  predicate HeaderLoads(lines: seq<string>)
  {
    && HeaderPadding(lines).Some?
    && HeaderLineHeight(lines).Some?
    && ParseIntOrNull(Get(LineValues(lines, 1), "scaleW")).Some?
  }

  // ---------------------------------------------------------------------------
  // The reader
  // ---------------------------------------------------------------------------

  class MetaFile {
    var lines: seq<string>
    var pos: nat
    var values: map<string, string>
    var metaData: map<int, Glyph>
    var padding: array<int>
    var paddingWidth: int
    var paddingHeight: int
    /** The line height in pixels without the vertical padding. */
    var lineHeightPixels: int
    /** The space character's advance in pixels without the horizontal padding. */
    var spaceAdvance: int

    /** Opens the file `file`; nothing is read yet. */
    constructor (file: seq<string>)
      ensures lines == file && pos == 0 && values == map[] && metaData == map[]
    {
      lines := file;
      pos := 0;
      values := map[];
      metaData := map[];
      padding := new int[0];
      paddingWidth := 0;
      paddingHeight := 0;
      lineHeightPixels := 0;
      spaceAdvance := 0;
    }

    /**
     * Clears the variables and reads the next line's: false, with no
     * variables, at the end of the file.
     */
    method ProcessNextLine() returns (more: bool)
      modifies this`values, this`pos
      ensures more <==> old(pos) < |lines|
      ensures values == LineValues(lines, old(pos))
      ensures pos == if more then old(pos) + 1 else old(pos)
    {
      values := map[];
      if pos >= |lines| {
        return false;
      }
      var line := lines[pos];
      var parts := Split(line, Literal(Splitter));
      for i := 0 to |parts|
        invariant pos == old(pos)
        invariant values == StoreAll(parts[..i])
      {
        StoreAllSnoc(parts, i);
        var valuePairs := Split(parts[i], Literal('='));
        if |valuePairs| == 2 {
          values := values[valuePairs[0] := valuePairs[1]];
        }
      }
      assert parts[..|parts|] == parts;
      assert values == Pairs(line);
      pos := pos + 1;
      return true;
    }

    /** `Integer.parseInt` of a variable of the current line; a missing variable is null, a NumberFormatException too. */
    function GetValueOfVariable(variable: string): (r: Option<int>)
      reads this
      ensures r.Some? ==> variable in values && ParseInt(values[variable]) == r
      ensures variable in values ==> r == ParseInt(values[variable])
      ensures variable !in values ==> r.None?
    {
      ParseIntOrNull(Get(values, variable))
    }

    /**
     * The comma-separated ints of a variable, one per part and in order. A
     * missing variable throws a NullPointerException, a part that is not an
     * int a NumberFormatException.
     */
    method GetValuesOfVariable(variable: string) returns (r: Result<array<int>>)
      ensures variable !in values ==> r == Threw(NullPointer)
      ensures variable in values && VariableInts(values, variable).None? ==> r == Threw(NumberFormat)
      ensures VariableInts(values, variable).Some? ==>
        r.Ok? && fresh(r.value) && r.value[..] == VariableInts(values, variable).value
    {
      if variable !in values {
        return Threw(NullPointer);
      }
      var numbers := Split(values[variable], Literal(NumberSeparator));
      var actualValues := new int[|numbers|];
      for i := 0 to actualValues.Length
        invariant IntList(numbers[..i]).Some? && actualValues[..i] == IntList(numbers[..i]).value
      {
        assert numbers[..i + 1][..i] == numbers[..i];
        var n := ParseInt(numbers[i]);
        if n.None? {
          IntListPrefix(numbers, i + 1);
          return Threw(NumberFormat);
        }
        actualValues[i] := n.value;
        assert actualValues[..i + 1] == actualValues[..i] + [n.value];
      }
      assert numbers[..|numbers|] == numbers;
      assert actualValues[..] == actualValues[..actualValues.Length];
      return Ok(actualValues);
    }

    /**
     * Reads the first line's padding, top, left, bottom and right, and the
     * total horizontal and vertical padding. Fewer than four values throw
     * an ArrayIndexOutOfBoundsException.
     */
    method LoadPaddingData() returns (r: Result<()>)
      requires pos <= |lines|
      modifies this`values, this`pos, this`padding, this`paddingWidth, this`paddingHeight
      ensures values == LineValues(lines, old(pos)) && pos == Min(old(pos) + 1, |lines|)
      ensures r.Ok? <==> VariableInts(values, PaddingVariable).Some? && |VariableInts(values, PaddingVariable).value| >= 4
      ensures r.Ok? ==> padding[..] == VariableInts(values, PaddingVariable).value
      ensures r.Ok? ==>
        var sides := VariableInts(values, PaddingVariable).value;
        paddingWidth == HorizontalPadding(sides) && paddingHeight == VerticalPadding(sides)
    {
      var _ := ProcessNextLine();
      r := ReadPadding();
    }

    /** The padding of the current line; an exception when it is missing, not ints, or shorter than four. */
    method ReadPadding() returns (r: Result<()>)
      modifies this`padding, this`paddingWidth, this`paddingHeight
      ensures r.Ok? <==> VariableInts(values, PaddingVariable).Some? && |VariableInts(values, PaddingVariable).value| >= 4
      ensures r.Ok? ==> padding[..] == VariableInts(values, PaddingVariable).value
      ensures r.Ok? ==>
        var sides := VariableInts(values, PaddingVariable).value;
        paddingWidth == HorizontalPadding(sides) && paddingHeight == VerticalPadding(sides)
    {
      var numbers := GetValuesOfVariable(PaddingVariable);
      if numbers.Threw? {
        return Threw(numbers.exception);
      }
      padding := numbers.value;
      if padding.Length < 4 {
        return Threw(IndexOutOfBounds);
      }
      SetPaddingSums(padding[..]);
      return Ok(());
    }

    /** The total horizontal and vertical padding, in `int` arithmetic, of the four `sides` of `padding`. */
    method SetPaddingSums(sides: seq<int>)
      requires |sides| >= 4
      modifies this`paddingWidth, this`paddingHeight
      ensures paddingWidth == HorizontalPadding(sides) && paddingHeight == VerticalPadding(sides)
    {
      paddingWidth := Wrap(sides[PadLeft] + sides[PadRight]);
      paddingHeight := Wrap(sides[PadTop] + sides[PadBottom]);
    }

    /** Reads the second line's line height and removes the vertical padding from it. */
    method LoadLineSizes() returns (r: Result<()>)
      requires pos <= |lines|
      modifies this`values, this`pos, this`lineHeightPixels
      ensures values == LineValues(lines, old(pos)) && pos == Min(old(pos) + 1, |lines|)
      ensures r.Ok? <==> GetValueOfVariable("lineHeight").Some?
      ensures r.Ok? ==> lineHeightPixels == Wrap(GetValueOfVariable("lineHeight").value - paddingHeight)
    {
      var _ := ProcessNextLine();
      var lineHeight := GetValueOfVariable("lineHeight");
      if lineHeight.None? {
        return Threw(NumberFormat);
      }
      lineHeightPixels := Wrap(lineHeight.value - paddingHeight);
      return Ok(());
    }

    /**
     * The character of the current line: null for a line without an id and
     * for the space character, whose advance is recorded instead.
     */
    method LoadCharacter() returns (r: Result<Option<Glyph>>)
      modifies this`spaceAdvance
      ensures var c := CharacterLine(values, paddingWidth, paddingHeight);
        && (c.Threw? ==> r == Threw(c.exception))
        && (c == Ok(NoId) ==> r == Ok(None) && spaceAdvance == old(spaceAdvance))
        && (c.Ok? && c.value.Space? ==> r == Ok(None) && spaceAdvance == c.value.advance)
        && (c.Ok? && c.value.GlyphLine? ==> r == Ok(Some(c.value.glyph)) && spaceAdvance == old(spaceAdvance))
    {
      var id := GetValueOfVariable("id");
      if id.None? {
        return Ok(None);
      }
      if id.value == SpaceAscii {
        var advance := GetValueOfVariable("xadvance");
        if advance.None? {
          return Threw(NumberFormat);
        }
        spaceAdvance := Wrap(advance.value - paddingWidth);
        return Ok(None);
      }
      var x := GetValueOfVariable("x");
      var y := GetValueOfVariable("y");
      var width := GetValueOfVariable("width");
      var height := GetValueOfVariable("height");
      var xoffset := GetValueOfVariable("xoffset");
      var yoffset := GetValueOfVariable("yoffset");
      var xadvance := GetValueOfVariable("xadvance");
      if x.None? || y.None? || width.None? || height.None? || xoffset.None? || yoffset.None? || xadvance.None? {
        return Threw(NumberFormat);
      }
      var w := Wrap(width.value - Wrap(paddingWidth - 2 * DesiredPadding));
      var h := Wrap(height.value - Wrap(paddingHeight - 2 * DesiredPadding));
      return Ok(Some(Glyph(id.value, x.value, y.value, w, h, xoffset.value, yoffset.value, xadvance.value)));
    }

    /** One pass of the character loop: the current line's character, if any, is stored under its id. */
    method StoreCharacter(ghost rest: seq<string>) returns (r: Result<()>)
      requires rest != [] && values == Pairs(rest[0])
      modifies this`metaData, this`spaceAdvance
      ensures var before := LoadGlyphs(rest, old(metaData), old(spaceAdvance), paddingWidth, paddingHeight);
        && (r.Threw? ==> before.Threw?)
        && (r.Ok? ==> before == LoadGlyphs(rest[1..], metaData, spaceAdvance, paddingWidth, paddingHeight))
    {
      LoadGlyphsStep(rest, metaData, spaceAdvance, paddingWidth, paddingHeight);
      var c := LoadCharacter();
      if c.Threw? {
        return Threw(c.exception);
      }
      if c.value.Some? {
        metaData := metaData[c.value.value.id := c.value.value];
      }
      return Ok(());
    }

    /**
     * Skips two lines, then reads every remaining line as a character line
     * and stores each character by id, until the end of the file.
     */
    method LoadCharacterData() returns (r: Result<()>)
      requires pos <= |lines|
      modifies this`values, this`pos, this`metaData, this`spaceAdvance
      ensures var expected :=
        LoadGlyphs(lines[Min(old(pos) + 2, |lines|)..], old(metaData), old(spaceAdvance), paddingWidth, paddingHeight);
        && (r.Ok? <==> expected.Ok?)
        && (r.Ok? ==> metaData == expected.value.0 && spaceAdvance == expected.value.1 && pos == |lines|)
    {
      var _ := ProcessNextLine();
      var _ := ProcessNextLine();
      assert pos == Min(old(pos) + 2, |lines|);
      r := LoadCharacters();
    }

    /** The character loop: reads every line from `pos` on as a character line, until the end of the file. */
    method LoadCharacters() returns (r: Result<()>)
      requires pos <= |lines|
      modifies this`values, this`pos, this`metaData, this`spaceAdvance
      ensures var expected := LoadGlyphs(lines[old(pos)..], old(metaData), old(spaceAdvance), paddingWidth, paddingHeight);
        && (r.Ok? <==> expected.Ok?)
        && (r.Ok? ==> metaData == expected.value.0 && spaceAdvance == expected.value.1 && pos == |lines|)
    {
      ghost var expected := LoadGlyphs(lines[pos..], metaData, spaceAdvance, paddingWidth, paddingHeight);
      ghost var cur := pos;
      var more := ProcessNextLine();
      while more
        invariant cur <= pos <= |lines|
        invariant more ==> cur == pos - 1 && values == Pairs(lines[cur])
        invariant !more ==> cur == pos == |lines|
        invariant expected == LoadGlyphs(lines[cur..], metaData, spaceAdvance, paddingWidth, paddingHeight)
        decreases |lines| - pos, more
      {
        ghost var here := lines[cur..];
        assert here[0] == lines[cur] && here[1..] == lines[pos..];
        var stored := StoreCharacter(here);
        if stored.Threw? {
          return stored;
        }
        cur := pos;
        more := ProcessNextLine();
      }
      assert lines[cur..] == [];
      return Ok(());
    }

    /**
     * Everything the constructor reads after opening the file: padding,
     * line sizes, the atlas width (which only feeds the left-out floating
     * point part, but must still be a number) and the characters. Loading
     * succeeds exactly when the header loads and so do the character lines
     * after the first four, measured with the header's padding.
     */
    method Load() returns (r: Result<()>)
      requires pos == 0 && metaData == map[]
      modifies this`values, this`pos, this`padding, this`paddingWidth, this`paddingHeight
      modifies this`lineHeightPixels, this`metaData, this`spaceAdvance
      ensures r.Ok? ==> HeaderLoads(lines) && |lines| >= 2 && pos == |lines|
      ensures HeaderLoads(lines) ==>
        var sides := HeaderPadding(lines).value;
        var expected := LoadGlyphs(lines[Min(4, |lines|)..], map[], old(spaceAdvance),
                                   HorizontalPadding(sides), VerticalPadding(sides));
        && (r.Ok? <==> expected.Ok?)
        && (r.Ok? ==>
              && paddingWidth == HorizontalPadding(sides) && paddingHeight == VerticalPadding(sides)
              && lineHeightPixels == Wrap(HeaderLineHeight(lines).value - VerticalPadding(sides))
              && metaData == expected.value.0 && spaceAdvance == expected.value.1)
    {
      r := LoadHeader();
      if r.Threw? {
        return;
      }
      assert Min(pos + 2, |lines|) == Min(4, |lines|);
      r := LoadCharacterData();
    }

    /**
     * The first two lines: the padding, then the line height and the atlas
     * width (which only feeds the left-out floating point part, but must
     * still be a number). It succeeds exactly when the header loads, and
     * then both lines have been read and the padding and line height are
     * theirs.
     */
    method LoadHeader() returns (r: Result<()>)
      requires pos == 0
      modifies this`values, this`pos, this`padding, this`paddingWidth, this`paddingHeight, this`lineHeightPixels
      ensures r.Ok? <==> HeaderLoads(lines)
      ensures r.Ok? ==> |lines| >= 2 && pos == 2
      ensures r.Ok? ==>
        var sides := HeaderPadding(lines).value;
        && padding[..] == sides
        && paddingWidth == HorizontalPadding(sides) && paddingHeight == VerticalPadding(sides)
        && lineHeightPixels == Wrap(HeaderLineHeight(lines).value - VerticalPadding(sides))
    {
      var padded := LoadPaddingData();
      if padded.Threw? {
        return padded;
      }
      ghost var first := values;
      assert HeaderPadding(lines) == VariableInts(first, PaddingVariable);
      var sized := LoadLineSizes();
      if sized.Threw? {
        return sized;
      }
      var imageWidth := GetValueOfVariable("scaleW");
      if imageWidth.None? {
        return Threw(NumberFormat);
      }
      return Ok(());
    }
  }

  /** Storing one more token. */
  lemma StoreAllSnoc(parts: seq<string>, i: nat)
    requires i < |parts|
    ensures StoreAll(parts[..i + 1])
         == if IsPair(parts[i]) then StoreAll(parts[..i])[KeyOf(parts[i]) := ValueOf(parts[i])] else StoreAll(parts[..i])
  {
    assert parts[..i + 1][..i] == parts[..i];
  }

  /** One character line of the loop: what it does to the table, or the exception that ends loading. */
  lemma LoadGlyphsStep(rest: seq<string>, metaData: map<int, Glyph>, spaceAdvance: int,
                       paddingWidth: int, paddingHeight: int)
    requires rest != []
    ensures var c := CharacterLine(Pairs(rest[0]), paddingWidth, paddingHeight);
      var after := LoadGlyphs(rest, metaData, spaceAdvance, paddingWidth, paddingHeight);
      && (c.Threw? ==> after == Threw(c.exception))
      && (c == Ok(NoId) ==> after == LoadGlyphs(rest[1..], metaData, spaceAdvance, paddingWidth, paddingHeight))
      && (c.Ok? && c.value.Space? ==>
            after == LoadGlyphs(rest[1..], metaData, c.value.advance, paddingWidth, paddingHeight))
      && (c.Ok? && c.value.GlyphLine? ==>
            after == LoadGlyphs(rest[1..], metaData[c.value.glyph.id := c.value.glyph], spaceAdvance,
                                paddingWidth, paddingHeight))
  {
  }

  /** A parse failure in the first `n` numbers fails the whole list. */
  lemma {:induction false} IntListPrefix(numbers: seq<string>, n: nat)
    requires n <= |numbers| && IntList(numbers[..n]).None?
    ensures IntList(numbers).None?
  {
    if n < |numbers| {
      var front := numbers[..|numbers| - 1];
      assert front[..n] == numbers[..n];
      IntListPrefix(front, n);
    } else {
      assert numbers[..n] == numbers;
    }
  }

  // ---------------------------------------------------------------------------
  // Properties
  // ---------------------------------------------------------------------------

  /** A token that is a pair decides its key's value unless a later pair has the same key: the last one wins. */
  lemma {:induction false} StoreAllLastWins(parts: seq<string>, i: nat)
    requires i < |parts| && IsPair(parts[i])
    requires forall j | i < j < |parts| :: !(IsPair(parts[j]) && KeyOf(parts[j]) == KeyOf(parts[i]))
    ensures KeyOf(parts[i]) in StoreAll(parts) && StoreAll(parts)[KeyOf(parts[i])] == ValueOf(parts[i])
  {
    if i < |parts| - 1 {
      var front := parts[..|parts| - 1];
      assert front[i] == parts[i];
      forall j | i < j < |front| ensures !(IsPair(front[j]) && KeyOf(front[j]) == KeyOf(front[i])) {
        assert front[j] == parts[j];
      }
      StoreAllLastWins(front, i);
    }
  }

  /** Only keys of pair tokens are stored. */
  lemma {:induction false} StoreAllOnlyPairs(parts: seq<string>, key: string)
    requires key in StoreAll(parts)
    ensures exists i :: 0 <= i < |parts| && IsPair(parts[i]) && KeyOf(parts[i]) == key
  {
    var front, last := parts[..|parts| - 1], parts[|parts| - 1];
    if IsPair(last) && KeyOf(last) == key {
      assert parts[|parts| - 1] == last;
    } else {
      StoreAllOnlyPairs(front, key);
      var i :| 0 <= i < |front| && IsPair(front[i]) && KeyOf(front[i]) == key;
      assert parts[i] == front[i];
    }
  }

  /** The width of a glyph without overflow: the atlas width minus the padding beyond three pixels per side. */
  lemma GlyphSizeExact(values: map<string, string>, paddingWidth: int, paddingHeight: int)
    requires CharacterLine(values, paddingWidth, paddingHeight).Ok?
    requires CharacterLine(values, paddingWidth, paddingHeight).value.GlyphLine?
    requires IsInt(paddingWidth) && IsInt(paddingHeight) && -0x4000_0000 <= paddingWidth <= 0x4000_0000
    requires -0x4000_0000 <= paddingHeight <= 0x4000_0000
    ensures var g := CharacterLine(values, paddingWidth, paddingHeight).value.glyph;
      var w := ParseIntOrNull(Get(values, "width")).value;
      var h := ParseIntOrNull(Get(values, "height")).value;
      (-0x3000_0000 <= w <= 0x3000_0000 ==> g.width == w - (paddingWidth - 2 * DesiredPadding))
      && (-0x3000_0000 <= h <= 0x3000_0000 ==> g.height == h - (paddingHeight - 2 * DesiredPadding))
  {
  }

  /** The space character never gets an entry in the character table. */
  lemma {:induction false} SpaceNeverStored(rest: seq<string>, metaData: map<int, Glyph>, spaceAdvance: int,
                                            paddingWidth: int, paddingHeight: int)
    requires SpaceAscii !in metaData
    requires LoadGlyphs(rest, metaData, spaceAdvance, paddingWidth, paddingHeight).Ok?
    ensures SpaceAscii !in LoadGlyphs(rest, metaData, spaceAdvance, paddingWidth, paddingHeight).value.0
  {
    if rest != [] {
      match CharacterLine(Pairs(rest[0]), paddingWidth, paddingHeight)
      case Threw(_) =>
      case Ok(NoId) => SpaceNeverStored(rest[1..], metaData, spaceAdvance, paddingWidth, paddingHeight);
      case Ok(Space(a)) => SpaceNeverStored(rest[1..], metaData, a, paddingWidth, paddingHeight);
      case Ok(GlyphLine(g)) => SpaceNeverStored(rest[1..], metaData[g.id := g], spaceAdvance, paddingWidth, paddingHeight);
    }
  }

  /** Whether a character line describes the character `id`. */
  predicate DescribesId(line: string, id: int, paddingWidth: int, paddingHeight: int)
  {
    var c := CharacterLine(Pairs(line), paddingWidth, paddingHeight);
    c.Ok? && c.value.GlyphLine? && c.value.glyph.id == id
  }

  /** A character that no line describes keeps the entry it had. */
  lemma {:induction false} EntryKept(rest: seq<string>, metaData: map<int, Glyph>, spaceAdvance: int,
                                     paddingWidth: int, paddingHeight: int, id: int)
    requires id in metaData
    requires forall line | line in rest :: !DescribesId(line, id, paddingWidth, paddingHeight)
    requires LoadGlyphs(rest, metaData, spaceAdvance, paddingWidth, paddingHeight).Ok?
    ensures var table := LoadGlyphs(rest, metaData, spaceAdvance, paddingWidth, paddingHeight).value.0;
      id in table && table[id] == metaData[id]
  {
    if rest != [] {
      var tail := rest[1..];
      assert !DescribesId(rest[0], id, paddingWidth, paddingHeight);
      match CharacterLine(Pairs(rest[0]), paddingWidth, paddingHeight)
      case Threw(_) =>
      case Ok(NoId) => EntryKept(tail, metaData, spaceAdvance, paddingWidth, paddingHeight, id);
      case Ok(Space(a)) => EntryKept(tail, metaData, a, paddingWidth, paddingHeight, id);
      case Ok(GlyphLine(h)) => EntryKept(tail, metaData[h.id := h], spaceAdvance, paddingWidth, paddingHeight, id);
    }
  }

  /** The table and space advance after the first character line, when loading goes on past it. */
  lemma LoadGlyphsNext(rest: seq<string>, metaData: map<int, Glyph>, spaceAdvance: int,
                       paddingWidth: int, paddingHeight: int)
    returns (next: map<int, Glyph>, advance: int)
    requires rest != [] && LoadGlyphs(rest, metaData, spaceAdvance, paddingWidth, paddingHeight).Ok?
    ensures LoadGlyphs(rest, metaData, spaceAdvance, paddingWidth, paddingHeight)
         == LoadGlyphs(rest[1..], next, advance, paddingWidth, paddingHeight)
    ensures var c := CharacterLine(Pairs(rest[0]), paddingWidth, paddingHeight);
      c.Ok? && next == if c.value.GlyphLine? then metaData[c.value.glyph.id := c.value.glyph] else metaData
  {
    match CharacterLine(Pairs(rest[0]), paddingWidth, paddingHeight)
    case Threw(_) =>
    case Ok(NoId) => next, advance := metaData, spaceAdvance;
    case Ok(Space(a)) => next, advance := metaData, a;
    case Ok(GlyphLine(h)) => next, advance := metaData[h.id := h], spaceAdvance;
  }

  /** Loading that goes through reads the first `i` lines into some table and space advance, then goes on from there. */
  lemma {:induction false} LoadGlyphsSkip(rest: seq<string>, metaData: map<int, Glyph>, spaceAdvance: int,
                                          paddingWidth: int, paddingHeight: int, i: nat)
    returns (next: map<int, Glyph>, advance: int)
    requires i <= |rest| && LoadGlyphs(rest, metaData, spaceAdvance, paddingWidth, paddingHeight).Ok?
    ensures LoadGlyphs(rest, metaData, spaceAdvance, paddingWidth, paddingHeight)
         == LoadGlyphs(rest[i..], next, advance, paddingWidth, paddingHeight)
  {
    if i == 0 {
      next, advance := metaData, spaceAdvance;
    } else {
      var first, firstAdvance := LoadGlyphsNext(rest, metaData, spaceAdvance, paddingWidth, paddingHeight);
      next, advance := LoadGlyphsSkip(rest[1..], first, firstAdvance, paddingWidth, paddingHeight, i - 1);
      assert rest[1..][i - 1..] == rest[i..];
    }
  }

  /**
   * The last line describing a character decides its entry: the glyph of
   * line `i` is in the table when no later line describes the same id.
   */
  lemma LastGlyphWins(rest: seq<string>, metaData: map<int, Glyph>, spaceAdvance: int,
                      paddingWidth: int, paddingHeight: int, i: nat, g: Glyph)
    requires i < |rest| && CharacterLine(Pairs(rest[i]), paddingWidth, paddingHeight) == Ok(GlyphLine(g))
    requires forall line | line in rest[i + 1..] :: !DescribesId(line, g.id, paddingWidth, paddingHeight)
    requires LoadGlyphs(rest, metaData, spaceAdvance, paddingWidth, paddingHeight).Ok?
    ensures var table := LoadGlyphs(rest, metaData, spaceAdvance, paddingWidth, paddingHeight).value.0;
      g.id in table && table[g.id] == g
  {
    var before, advance := LoadGlyphsSkip(rest, metaData, spaceAdvance, paddingWidth, paddingHeight, i);
    var suffix := rest[i..];
    assert suffix[0] == rest[i] && suffix[1..] == rest[i + 1..];
    FirstGlyphKept(suffix, before, advance, paddingWidth, paddingHeight, g);
  }

  /** The glyph of the first line stays in the table when no later line describes the same id. */
  lemma FirstGlyphKept(rest: seq<string>, metaData: map<int, Glyph>, spaceAdvance: int,
                       paddingWidth: int, paddingHeight: int, g: Glyph)
    requires rest != [] && CharacterLine(Pairs(rest[0]), paddingWidth, paddingHeight) == Ok(GlyphLine(g))
    requires forall line | line in rest[1..] :: !DescribesId(line, g.id, paddingWidth, paddingHeight)
    requires LoadGlyphs(rest, metaData, spaceAdvance, paddingWidth, paddingHeight).Ok?
    ensures var table := LoadGlyphs(rest, metaData, spaceAdvance, paddingWidth, paddingHeight).value.0;
      g.id in table && table[g.id] == g
  {
    var next, advance := LoadGlyphsNext(rest, metaData, spaceAdvance, paddingWidth, paddingHeight);
    EntryKept(rest[1..], next, advance, paddingWidth, paddingHeight, g.id);
  }

  /** The texts of some ints, as `Integer.toString` writes them. */
  function IntStrings(xs: seq<int>): (r: seq<string>)
    ensures |r| == |xs|
    ensures forall k | 0 <= k < |xs| :: r[k] == IntToString(xs[k])
  {
    if xs == [] then [] else IntStrings(xs[..|xs| - 1]) + [IntToString(xs[|xs| - 1])]
  }

  /** Parsing one more number text appends its int. */
  lemma IntListSnoc(numbers: seq<string>, front: seq<int>, last: int)
    requires |numbers| > 0 && IntList(numbers[..|numbers| - 1]) == Some(front)
    requires ParseInt(numbers[|numbers| - 1]) == Some(last)
    ensures IntList(numbers) == Some(front + [last])
  {
  }

  /** Parts that each parse as an int read back as those ints, in order. */
  lemma {:induction false} IntListOfParsed(parts: seq<string>, xs: seq<int>)
    requires |parts| == |xs|
    requires forall k | 0 <= k < |xs| :: ParseInt(parts[k]) == Some(xs[k])
    ensures IntList(parts) == Some(xs)
  {
    if xs != [] {
      var n := |xs|;
      IntListOfParsed(parts[..n - 1], xs[..n - 1]);
      IntListSnoc(parts, xs[..n - 1], xs[n - 1]);
      assert xs[..n - 1] + [xs[n - 1]] == xs;
    }
  }

  lemma NoSeparatorInInt(n: int)
    ensures !HasMatch(IntToString(n), Literal(NumberSeparator))
    ensures IntToString(n) != ""
  {
    var s := IntToString(n);
    forall i | 0 <= i < |s| ensures s[i] != NumberSeparator {
      if n < 0 {
        assert s[1..] == NatToString(-n);
        if i > 0 {
          assert s[i] == s[1..][i - 1];
        }
      }
    }
  }

  /** A list of ints written with commas between them reads back as the same ints, in order. */
  lemma IntListRoundTrip(xs: seq<int>)
    requires |xs| >= 1 && forall k | 0 <= k < |xs| :: IsInt(xs[k])
    ensures IntList(Split(Join(IntStrings(xs), NumberSeparator), Literal(NumberSeparator))) == Some(xs)
  {
    var texts := IntStrings(xs);
    forall k | 0 <= k < |texts| ensures !HasMatch(texts[k], Literal(NumberSeparator)) && texts[k] != "" {
      NoSeparatorInInt(xs[k]);
    }
    if |xs| == 1 {
      assert Join(texts, NumberSeparator) == texts[0];
      assert Split(texts[0], Literal(NumberSeparator)) == [texts[0]] == texts;
    } else {
      SplitOfJoin(texts, NumberSeparator);
    }
    forall k | 0 <= k < |xs| ensures ParseInt(texts[k]) == Some(xs[k]) {
      ParseIntToString(xs[k]);
    }
    IntListOfParsed(texts, xs);
  }
}
