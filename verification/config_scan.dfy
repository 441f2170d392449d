/** The config-file scan at the top of `main`: every line is either a
    credential directive (`user=`, `password=`, `server=`, matched after
    removing spaces and lower-casing) or, verbatim, a directory to back up. */
module ConfigScan {
  import opened Strings

  /** The three credentials a directive line can set. */
  datatype Key = User | Password | Server

  /** The text a normalised line must start with to set `k`. */
  function Prefix(k: Key): string {
    match k
    case User => "user="
    case Password => "password="
    case Server => "server="
  }

  /** One line of the config file, classified. */
  datatype Line = Directive(key: Key, value: string) | Dir(text: string)

  /** What the scan collects: the three credentials and the directories in
      file order. */
  datatype Config = Config(user: string, password: string, server: string, dirs: seq<string>)
  {
    function Field(k: Key): string {
      match k
      case User => user
      case Password => password
      case Server => server
    }
  }

  /** The credentials start out empty and no directory has been seen. */
  const Empty := Config("", "", "", [])

  /** The form a line is prefix-tested in: spaces removed, then lower-cased. */
  function Normalize(raw: string): (r: string)
    ensures ' ' !in r
    ensures NoUpper(r)
    ensures |r| <= |raw|
  {
    var t := RemoveSpaces(raw);
    var r := Lower(t);
    assert forall i :: 0 <= i < |r| ==> r[i] != ' ' by {
      forall i | 0 <= i < |r|
        ensures r[i] != ' '
      {
        assert t[i] in t;
      }
    }
    r
  }

  /** The `switch` on a line: the first matching prefix makes it a directive
      whose value is the rest of the normalised line; no match makes it a
      directory, kept as written. */
  function Classify(raw: string): (r: Line)
    ensures r.Directive? ==> Normalize(raw) == Prefix(r.key) + r.value
    ensures r.Dir? <==> forall k: Key :: !HasPrefix(Normalize(raw), Prefix(k))
    ensures r.Dir? ==> r.text == raw
    ensures r.Directive? ==> ' ' !in r.value && NoUpper(r.value)
  {
    var l := Normalize(raw);
    if HasPrefix(l, "user=") then Directive(User, TrimPrefix(l, "user="))
    else if HasPrefix(l, "password=") then Directive(Password, TrimPrefix(l, "password="))
    else if HasPrefix(l, "server=") then Directive(Server, TrimPrefix(l, "server="))
    else Dir(raw)
  }

  /** Normalising is idempotent: a normalised line is its own normal form,
      so feeding a directive's normal form back in sets the same value. */
  lemma NormalizeIdempotent(raw: string)
    ensures Normalize(Normalize(raw)) == Normalize(raw)
    ensures Classify(raw).Directive? ==> Classify(Normalize(raw)) == Classify(raw)
  {
    RemoveSpacesNoop(Normalize(raw));
    LowerIdempotent(RemoveSpaces(raw));
  }

  /** Does `raw` set credential `k`? */
  predicate Sets(raw: string, k: Key) {
    Classify(raw).Directive? && Classify(raw).key == k
  }

  /** The effect of one classified line on the collected config: a
      directive overwrites its own credential and nothing else; a directory
      is appended and nothing else changes. */
  function Apply(c: Config, line: Line): (r: Config)
    ensures line.Directive? ==> r.Field(line.key) == line.value && r.dirs == c.dirs
    ensures forall k: Key :: !(line.Directive? && line.key == k) ==> r.Field(k) == c.Field(k)
    ensures line.Dir? ==> r.dirs == c.dirs + [line.text]
  {
    match line
    case Directive(User, v) => c.(user := v)
    case Directive(Password, v) => c.(password := v)
    case Directive(Server, v) => c.(server := v)
    case Dir(t) => c.(dirs := c.dirs + [t])
  }

  /** The scan as a left fold over the already-split lines. Every credential
      it stores is a normalised value: no spaces, no upper case. */
  function Scan(lines: seq<string>): (c: Config)
    ensures forall k: Key :: ' ' !in c.Field(k) && NoUpper(c.Field(k))
    ensures |c.dirs| <= |lines|
    decreases |lines|
  {
    if lines == [] then Empty
    else Apply(Scan(lines[..|lines| - 1]), Classify(lines[|lines| - 1]))
  }

  /** The scanning loop, line by line, as the source writes it. */
  method ScanLines(lines: seq<string>) returns (c: Config)
    ensures c == Scan(lines)
    ensures forall k: Key :: ' ' !in c.Field(k) && NoUpper(c.Field(k))
  {
    c := Empty;
    var i := 0;
    while i < |lines|
      invariant 0 <= i <= |lines|
      invariant c == Scan(lines[..i])
    {
      assert lines[..i + 1][..i] == lines[..i];
      c := Apply(c, Classify(lines[i]));
      i := i + 1;
    }
    assert lines[..|lines|] == lines;
  }

  /** Reference definition of the directory list: the lines that are not
      directives, front to back. */
  function NonDirectives(lines: seq<string>): seq<string> {
    if lines == [] then []
    else Kept(lines[0]) + NonDirectives(lines[1..])
  }

  /** The line itself if it is a directory, nothing if it is a directive. */
  function Kept(x: string): seq<string> {
    if Classify(x).Dir? then [x] else []
  }

  lemma {:induction false} NonDirectivesSnoc(lines: seq<string>, x: string)
    ensures NonDirectives(lines + [x]) == NonDirectives(lines) + Kept(x)
  {
    if lines != [] {
      var rest := lines[1..];
      assert (lines + [x])[0] == lines[0];
      assert (lines + [x])[1..] == rest + [x];
      NonDirectivesSnoc(rest, x);
      calc {
        NonDirectives(lines + [x]);
        Kept(lines[0]) + NonDirectives(rest + [x]);
        Kept(lines[0]) + (NonDirectives(rest) + Kept(x));
        (Kept(lines[0]) + NonDirectives(rest)) + Kept(x);
        NonDirectives(lines) + Kept(x);
      }
    } else {
      assert [x][1..] == [];
    }
  }

  /** The scan keeps exactly the non-directive lines, unnormalised and in
      input order. */
  lemma {:induction false} ScanDirs(lines: seq<string>)
    ensures Scan(lines).dirs == NonDirectives(lines)
    decreases |lines|
  {
    if lines != [] {
      var init, x := lines[..|lines| - 1], lines[|lines| - 1];
      assert init + [x] == lines;
      ScanDirs(init);
      NonDirectivesSnoc(init, x);
      assert Scan(lines) == Apply(Scan(init), Classify(x));
      assert Scan(lines).dirs == Scan(init).dirs + Kept(x);
    }
  }

  lemma {:induction false} NonDirectivesMembers(lines: seq<string>)
    ensures forall x :: x in NonDirectives(lines) <==> x in lines && Classify(x).Dir?
  {
    if lines != [] {
      NonDirectivesMembers(lines[1..]);
      assert lines == [lines[0]] + lines[1..];
    }
  }

  /** A line lands in `dirs` exactly when it is not a directive; directive
      lines never do. */
  lemma ScanDirsMembers(lines: seq<string>)
    ensures forall x :: x in Scan(lines).dirs <==> x in lines && Classify(x).Dir?
  {
    ScanDirs(lines);
    NonDirectivesMembers(lines);
  }

  /** A credential no line sets keeps its initial empty value. */
  lemma {:induction false} UnsetFieldStaysEmpty(lines: seq<string>, k: Key)
    requires forall i :: 0 <= i < |lines| ==> !Sets(lines[i], k)
    ensures Scan(lines).Field(k) == ""
    decreases |lines|
  {
    if lines != [] {
      UnsetFieldStaysEmpty(lines[..|lines| - 1], k);
    }
  }

  /** When several lines set the same credential, the last one wins. */
  lemma {:induction false} LastDirectiveWins(lines: seq<string>, k: Key, i: nat)
    requires i < |lines| && Sets(lines[i], k)
    requires forall j :: i < j < |lines| ==> !Sets(lines[j], k)
    ensures Scan(lines).Field(k) == Classify(lines[i]).value
    decreases |lines|
  {
    var init, x := lines[..|lines| - 1], lines[|lines| - 1];
    assert Scan(lines) == Apply(Scan(init), Classify(x));
    if i < |lines| - 1 {
      assert init[i] == lines[i];
      assert !Sets(x, k);
      LastDirectiveWins(init, k, i);
    }
  }

  /** The key is matched case-insensitively and the value is stored
      lower-cased. */
  lemma KeyCaseIgnored(v: string)
    requires ' ' !in v
    ensures Classify("USER=" + v) == Directive(User, Lower(v))
  {
    UpperKeyNormalizes(v);
    var l := "user=" + Lower(v);
    assert HasPrefix(l, "user=");
    assert l[|"user="|..] == Lower(v);
  }

  lemma UpperKeyNormalizes(v: string)
    requires ' ' !in v
    ensures Normalize("USER=" + v) == "user=" + Lower(v)
  {
    UpperKeySpaces(v);
    UpperKeyLower();
    LowerAppend("USER=", v);
  }

  lemma UpperKeySpaces(v: string)
    requires ' ' !in v
    ensures RemoveSpaces("USER=" + v) == "USER=" + v
  {
    assert ' ' !in "USER=" + v;
    RemoveSpacesNoop("USER=" + v);
  }

  lemma UpperKeyLower()
    ensures Lower("USER=") == "user="
  {
  }

  /** A line of nothing but spaces, the empty line included, is a
      directory, kept as written. */
  lemma {:induction false} BlankLineIsDirectory(raw: string)
    requires forall i :: 0 <= i < |raw| ==> raw[i] == ' '
    ensures RemoveSpaces(raw) == []
    ensures Classify(raw) == Dir(raw)
  {
    if raw != [] {
      BlankLineIsDirectory(raw[1..]);
    }
  }

  /** Only spaces are removed: a directive behind a leading tab is a
      directory, kept as written. */
  lemma TabbedLineIsDirectory(rest: string)
    ensures Classify("\t" + rest) == Dir("\t" + rest)
  {
    RemoveSpacesAppend("\t", rest);
    LowerAppend(RemoveSpaces("\t"), RemoveSpaces(rest));
    var l := Normalize("\t" + rest);
    assert l[0] == '\t';
  }
}
