/** `tbf.NewSource`: resolves the user's source string into the URL to
    download from (empty when there is none) and the local file name.

    The definitions of `NewSource` and `URLMap` (tbf/source.go) are not part
    of this model. The model resolves a string containing `http` as a URL
    first, then an alias, then a bare file name; the four cases of
    TestNewSource pin one branch each. The alias table is a parameter: its URLs are not known
    here, only what the tests require of them. */
module TbfSource {
  import opened Strings

  datatype Source = Source(url: string, fileName: string)

  /** What the alias cases of TestNewSource require of `URLMap`: the URL of
      alias `a` ends in the file name `a_circles.csv`. */
  predicate WellFormedAliases(urlMap: map<string, string>)
  {
    forall a | a in urlMap :: LastSegment(urlMap[a]) == a + "_circles.csv"
  }

  function NewSource(urlMap: map<string, string>, source: string): (r: Source)
    ensures Contains(source, "http") ==> r.url == source
  {
    if Contains(source, "http") then Source(source, LastSegment(source))
    else if source in urlMap then Source(urlMap[source], LastSegment(urlMap[source]))
    else Source("", source)
  }

  /** Whenever there is a URL, the file name is its last path segment; with
      no URL, the file name is the source string itself. */
  lemma FileNameIsLastSegment(urlMap: map<string, string>, source: string)
    requires WellFormedAliases(urlMap)
    ensures var r := NewSource(urlMap, source);
      && (r.url != "" ==> r.fileName == LastSegment(r.url))
      && (r.url == "" ==> r.fileName == source)
  {
    var r := NewSource(urlMap, source);
    if !Contains(source, "http") && source in urlMap {
      assert LastSegment(urlMap[source]) == source + "_circles.csv";
    }
  }

  /** A string lacking the first character of `sub` does not contain it. */
  lemma NoFirstCharNoContains(s: string, sub: string)
    requires |sub| > 0 && sub[0] !in s
    ensures !Contains(s, sub)
  {
  }

  /** An alias that is not a URL resolves to its table URL and the file
      name `<alias>_circles.csv`. */
  lemma AliasResolves(urlMap: map<string, string>, alias: string)
    requires alias in urlMap && LastSegment(urlMap[alias]) == alias + "_circles.csv" && !Contains(alias, "http")
    ensures NewSource(urlMap, alias) == Source(urlMap[alias], alias + "_circles.csv")
  {
  }

  /** An alias without an `h` cannot contain `http`, so it resolves as an
      alias. */
  lemma AliasWithoutH(urlMap: map<string, string>, alias: string)
    requires WellFormedAliases(urlMap) && alias in urlMap && 'h' !in alias
    ensures NewSource(urlMap, alias) == Source(urlMap[alias], alias + "_circles.csv")
  {
    NoFirstCharNoContains(alias, "http");
    AliasResolves(urlMap, alias);
  }

  /** A URL `dir/name` is kept and names the file `name`. */
  lemma {:induction false} UrlResolves(urlMap: map<string, string>, dir: string, name: string)
    requires |dir| >= 4 && dir[..4] == "http" && '/' !in name
    ensures NewSource(urlMap, dir + "/" + name) == Source(dir + "/" + name, name)
  {
    assert OccursAt(dir + "/" + name, "http", 0);
    LastSegmentAfterSlash(dir, name);
  }

  /** A name that is neither a URL nor an alias is a local file with no URL. */
  lemma FileNameResolves(urlMap: map<string, string>, name: string)
    requires name !in urlMap && !Contains(name, "http")
    ensures NewSource(urlMap, name) == Source("", name)
  {
  }

  /** The `tbf4` case of TestNewSource. */
  lemma {:induction false} TestTbf4Case(urlMap: map<string, string>)
    requires WellFormedAliases(urlMap) && "tbf4" in urlMap
    ensures NewSource(urlMap, "tbf4") == Source(urlMap["tbf4"], "tbf4" + "_circles.csv")
  {
    AliasWithoutH(urlMap, "tbf4");
  }

  /** The `latest` case of TestNewSource. */
  lemma {:induction false} TestLatestCase(urlMap: map<string, string>)
    requires WellFormedAliases(urlMap) && "latest" in urlMap
    ensures NewSource(urlMap, "latest") == Source(urlMap["latest"], "latest" + "_circles.csv")
  {
    AliasWithoutH(urlMap, "latest");
  }

  /** The URL case of TestNewSource. */
  lemma {:induction false} TestUrlCase(urlMap: map<string, string>)
    ensures NewSource(urlMap, "http://example.com/test_circles.csv")
         == Source("http://example.com/test_circles.csv", "test_circles.csv")
  {
    assert "http://example.com/test_circles.csv" == "http://example.com" + "/" + "test_circles.csv";
    UrlResolves(urlMap, "http://example.com", "test_circles.csv");
  }

  /** The bare file name case of TestNewSource. */
  lemma {:induction false} TestFileNameCase(urlMap: map<string, string>)
    requires "test_circles.csv" !in urlMap
    ensures NewSource(urlMap, "test_circles.csv") == Source("", "test_circles.csv")
  {
    NoFirstCharNoContains("test_circles.csv", "http");
    FileNameResolves(urlMap, "test_circles.csv");
  }
}
