/** IniFileHelper: the dictionaries in memory and the file behind them. */
module IniStore {
  import opened Text
  import opened IniFile

  class IniFileHelper {
    const fold: Fold
    var sections: seq<Section>
    var modified: bool
    var file: Option<string>      // the text on disk, if there is a file

    /** The constructor loads the file if there is one. */
    constructor (fold: Fold, file: Option<string>)
      ensures this.fold == fold && this.file == file && !modified
      ensures sections == if file.Some? then IniFile.Load(file.value, fold) else []
    {
      this.fold, this.file, sections, modified := fold, file, [], false;
      new;
      if file.Some? {
        Load();
      }
    }

    method Load()
      requires file.Some?
      modifies `sections
      ensures sections == LoadLines(Loading(old(sections), None), SplitLines(file.value), fold).store
    {
      var currentSection: Option<string> := None;
      var lines := SplitLines(file.value);
      ghost var start := Loading(sections, None);
      for i := 0 to |lines|
        invariant LoadLines(start, lines[..i], fold) == Loading(sections, currentSection)
      {
        assert lines[..i + 1][..i] == lines[..i];
        currentSection := Take(lines[i], currentSection);
      }
      assert lines[..|lines|] == lines;
    }

    /** One line. */
    method Take(rawLine: string, currentSection: Option<string>) returns (current: Option<string>)
      modifies `sections
      ensures Loading(sections, current) == LoadLine(Loading(old(sections), currentSection), rawLine, fold)
    {
      current := currentSection;
      var line := Trim(rawLine);
      if line == [] || line[0] == ';' || line[0] == '#' {
        return;
      }
      if line[0] == '[' {
        var end := IndexOf(line, ']');
        if end > 1 {
          current := Some(Trim(line[1..end]));
          sections := PutSection(sections, current.value, fold);
        }
        return;
      }
      if current.Some? {
        var eqPos := IndexOf(line, '=');
        if eqPos > 0 {
          sections := SetValue(sections, current.value, Trim(line[..eqPos]), line[eqPos + 1..], fold);
        }
      }
    }

    method ReadString(section: string, key: string, defaultValue: string) returns (value: string)
      ensures value == var v := Lookup(sections, section, key, fold); if v.Some? then v.value else defaultValue
    {
      var k := FindSection(sections, section, fold);
      if k < |sections| {
        var j := FindKey(sections[k].entries, key, fold);
        if j < |sections[k].entries| {
          return sections[k].entries[j].val;
        }
      }
      return defaultValue;
    }

    method WriteString(section: string, key: string, value: string)
      modifies `sections, `modified
      ensures sections == Write(old(sections), section, key, value, fold) && modified
    {
      sections := PutSection(sections, section, fold);
      sections := SetValue(sections, section, key, value, fold);
      modified := true;
    }

    method EraseSection(section: string)
      modifies `sections, `modified
      ensures sections == Erase(old(sections), section, fold)
      ensures IsStore(old(sections), fold) ==> IsStore(sections, fold) && ErasedExactly(old(sections), sections, section, fold)
      ensures modified == (old(modified) || FindSection(old(sections), section, fold) < |old(sections)|)
    {
      var k := FindSection(sections, section, fold);
      if IsStore(sections, fold) {
        EraseRemoves(sections, section, fold);
      }
      if k < |sections| {
        sections := sections[..k] + sections[k + 1..];
        modified := true;
      }
    }

    /** Save: the text is built up line by line and replaces the file. */
    method Save()
      modifies `file
      ensures file == Some(IniFile.Save(sections))
    {
      var sb: string := [];
      for i := 0 to |sections|
        invariant sb == Render(SaveLines(sections[..i]))
      {
        assert sections[..i + 1][..i] == sections[..i];
        RenderConcat(SaveLines(sections[..i]), SectionLines(sections[i]));
        var lines := SectionText(sections[i]);
        sb := sb + lines;
      }
      assert sections[..|sections|] == sections;
      file := Some(sb);
    }

    static method SectionText(s: Section) returns (sb: string)
      ensures sb == Render(SectionLines(s))
    {
      var header := "[" + s.name + "]";
      sb := header + "\r\n";
      RenderOne(header);
      for j := 0 to |s.entries|
        invariant sb == Render([header] + EntryLines(s.entries[..j]))
      {
        var line := s.entries[j].key + "=" + s.entries[j].val;
        assert s.entries[..j + 1][..j] == s.entries[..j];
        assert [header] + EntryLines(s.entries[..j + 1]) == [header] + EntryLines(s.entries[..j]) + [line];
        RenderConcat([header] + EntryLines(s.entries[..j]), [line]);
        RenderOne(line);
        sb := sb + (line + "\r\n");
      }
      assert s.entries[..|s.entries|] == s.entries;
      RenderConcat([header] + EntryLines(s.entries), [[]]);
      RenderOne([]);
      sb := sb + "\r\n";
    }

    method Flush()
      modifies `file, `modified
      ensures !modified && file == if old(modified) then Some(IniFile.Save(sections)) else old(file)
    {
      if !modified {
        return;
      }
      Save();
      modified := false;
    }

    method Reload()
      modifies `sections, `modified
      ensures !modified && sections == if file.Some? then IniFile.Load(file.value, fold) else []
    {
      sections := [];
      if file.Some? {
        Load();
      }
      modified := false;
    }

    /** Writing out and reading back: what is in memory survives exactly when it can be written. */
    method FlushAndReload()
      requires IsStore(sections, fold) && modified
      modifies this
      ensures sections == old(sections) <==> Clean(old(sections)) && NoBlankName(old(sections))
    {
      StoreRoundTrip(sections, fold);
      Flush();
      Reload();
    }
  }

  lemma RenderOne(line: string)
    ensures Render([line]) == line + "\r\n"
  {
    assert [line][1..] == [];
  }

  lemma {:induction false} RenderConcat(a: seq<string>, b: seq<string>)
    ensures Render(a + b) == Render(a) + Render(b)
    decreases |a|
  {
    if a == [] {
      assert a + b == b;
    } else {
      assert (a + b)[1..] == a[1..] + b;
      RenderConcat(a[1..], b);
    }
  }
}
