/** Dotted names: the string operations the parser and the resolver use, and relative imports. */
module DottedNames {

  // ---------------------------------------------------------------- partition and split

  /** The part before the first dot: partition(".")[0]. */
  function First(s: string): (r: string)
    ensures '.' !in r
    ensures |r| <= |s| && s[..|r|] == r
    ensures |r| < |s| ==> s[|r|] == '.'
    ensures |r| == |s| <==> '.' !in s
  {
    if s == [] || s[0] == '.' then []
    else
      assert s == [s[0]] + s[1..];
      [s[0]] + First(s[1..])
  }

  /** The part after the first dot, or nothing. */
  function Rest(s: string): string {
    if |First(s)| < |s| then s[|First(s)| + 1..] else ""
  }

  /** rsplit(".", 1)[0]: the whole name when it has no dot. */
  function Container(s: string): (r: string) {
    if '.' !in s then s
    else if s[|s| - 1] == '.' then s[..|s| - 1]
    else
      assert s == s[..|s| - 1] + [s[|s| - 1]];
      Container(s[..|s| - 1])
  }

  /** rpartition(".")[0]: nothing when the name has no dot. */
  function Parent(s: string): string {
    if '.' in s then Container(s) else ""
  }

  /** rsplit(".", 1)[-1]. */
  function LastPart(s: string): (r: string)
    ensures '.' !in r
  {
    if s == [] || s[|s| - 1] == '.' then []
    else LastPart(s[..|s| - 1]) + [s[|s| - 1]]
  }

  function Split(s: string): (r: seq<string>)
    ensures r != []
  {
    if |First(s)| < |s| then [First(s)] + Split(Rest(s)) else [s]
  }

  function Join(parts: seq<string>): string {
    if parts == [] then ""
    else if |parts| == 1 then parts[0]
    else parts[0] + "." + Join(parts[1..])
  }

  /** Removing leading dots: lstrip("."). */
  function Stripped(s: string): (r: string)
    ensures |r| <= |s| && r == s[|s| - |r|..]
    ensures r == [] || r[0] != '.'
  {
    if s != [] && s[0] == '.' then Stripped(s[1..]) else s
  }

  /** What precedes the first occurrence of a marker: split(marker, 1)[0]. */
  function Before(s: string, marker: string): (r: string)
    ensures r <= s
  {
    if marker <= s || s == [] then [] else [s[0]] + Before(s[1..], marker)
  }

  // ---------------------------------------------------------------- relative imports

  function Max(x: int, y: int): int {
    if x >= y then x else y
  }

  /** _absolute_import: leading dots count the level. */
  function AbsoluteImport(imported: string, package: string): string {
    var remainder := Stripped(imported);
    var level := |imported| - |remainder|;
    if level == 0 then imported
    else
      var parts := if package == "" then [] else Split(package);
      Join(parts[..Max(0, |parts| - level + 1)] + if remainder == "" then [] else [remainder])
  }

  function Dots(n: nat): (r: string)
    ensures |r| == n
    ensures forall i :: 0 <= i < n ==> r[i] == '.'
  {
    if n == 0 then "" else Dots(n - 1) + "."
  }

  /** visit_ImportFrom: the imported name for one alias of a from-import. */
  function ImportedName(level: nat, fromModule: string, name: string): string {
    var head := Dots(level) + fromModule;
    if name == "*" then head
    else if head == "" then name
    else if head[|head| - 1] == '.' then head + name
    else head + "." + name
  }

  predicate Identifier(s: string) {
    s != "" && '.' !in s && s != "*"
  }

  /** A dotted name as Python's grammar has it: identifiers joined by dots. */
  predicate Dotted(parts: seq<string>) {
    parts != [] && forall i :: 0 <= i < |parts| ==> Identifier(parts[i])
  }

  lemma {:induction false} FirstOf(head: string, tail: string)
    requires '.' !in head
    ensures First(head + "." + tail) == head && Rest(head + "." + tail) == tail
    decreases |head|
  {
    var s := head + "." + tail;
    if head == "" {
      assert s[1..] == tail;
    } else {
      FirstOf(head[1..], tail);
      assert s[1..] == head[1..] + "." + tail;
      assert s[|head| + 1..] == tail;
    }
  }

  lemma SplitOf(head: string, tail: string)
    requires '.' !in head
    ensures Split(head + "." + tail) == [head] + Split(tail)
  {
    FirstOf(head, tail);
  }

  lemma SplitOne(s: string)
    requires '.' !in s
    ensures Split(s) == [s]
  {
  }

  lemma JoinCons(parts: seq<string>)
    requires parts != []
    ensures Join(parts) == if |parts| == 1 then parts[0] else parts[0] + "." + Join(parts[1..])
  {
  }

  /** Splitting undoes joining. */
  lemma {:induction false} SplitJoin(parts: seq<string>)
    requires parts != [] && forall i :: 0 <= i < |parts| ==> '.' !in parts[i]
    ensures Split(Join(parts)) == parts
    decreases |parts|
  {
    hide Split, Join;
    JoinCons(parts);
    if |parts| == 1 {
      SplitOne(parts[0]);
    } else {
      SplitJoin(parts[1..]);
      SplitOf(parts[0], Join(parts[1..]));
    }
  }

  lemma {:induction false} JoinConcat(first: seq<string>, second: seq<string>)
    requires first != [] && second != []
    ensures Join(first + second) == Join(first) + "." + Join(second)
    decreases |first|
  {
    if |first| == 1 {
      assert (first + second)[1..] == second;
    } else {
      JoinConcat(first[1..], second);
      assert (first + second)[1..] == first[1..] + second;
      assert first[0] + "." + (Join(first[1..]) + "." + Join(second))
             == (first[0] + "." + Join(first[1..])) + "." + Join(second);
    }
  }

  lemma JoinNonEmpty(parts: seq<string>)
    requires Dotted(parts)
    ensures Join(parts) != "" && Join(parts)[0] != '.' && Join(parts)[|Join(parts)| - 1] != '.'
    ensures Join(parts) != "*"
    decreases |parts|
  {
    assert Identifier(parts[0]);
    if |parts| > 1 {
      JoinNonEmpty(parts[1..]);
      var tail := Join(parts[1..]);
      assert Join(parts) == parts[0] + "." + tail;
      assert Join(parts)[|Join(parts)| - 1] == tail[|tail| - 1];
      assert |Join(parts)| >= 3;
    }
  }

  lemma {:induction false} StripDots(n: nat, tail: string)
    requires tail == "" || tail[0] != '.'
    ensures Stripped(Dots(n) + tail) == tail
    decreases n
  {
    if n > 0 {
      assert (Dots(n) + tail)[0] == '.';
      DotsMore(n);
      assert (Dots(n) + tail)[1..] == Dots(n)[1..] + tail;
      StripDots(n - 1, tail);
    } else {
      assert Dots(0) + tail == tail;
    }
  }

  lemma DotsMore(n: nat)
    requires n > 0
    ensures Dots(n)[1..] == Dots(n - 1)
  {
  }

  /** What section 5.7 of The Python Language Reference makes of a from-import: one leading dot
      is the current package, each further one its parent, then the module, then the name. */
  function Absolute(package: seq<string>, level: nat, fromModule: seq<string>, name: string): seq<string>
    requires 0 < level <= |package|
  {
    package[..|package| - (level - 1)] + fromModule + if name == "*" then [] else [name]
  }

  /** Encoding a relative import in the entity's name and decoding it against the package gives
      the absolute name, for every level the package allows. */
  lemma RelativeImportRoundTrip(package: seq<string>, level: nat, fromModule: seq<string>, name: string)
    requires Dotted(package) && 0 < level <= |package|
    requires fromModule == [] || Dotted(fromModule)
    requires Identifier(name) || name == "*"
    ensures AbsoluteImport(ImportedName(level, Join(fromModule), name), Join(package))
            == Join(Absolute(package, level, fromModule, name))
  {
    hide Join, Split, Stripped, Dots, ImportedName, Dotted, Identifier;
    var tail := fromModule + if name == "*" then [] else [name];
    EncodedTail(level, fromModule, name);
    TailStart(fromModule, name);
    StripDots(level, Join(tail));
    SplitPackage(package);
    var kept := package[..|package| - (level - 1)];
    if tail == [] {
      assert kept + [] == kept == Absolute(package, level, fromModule, name);
    } else {
      JoinConcat(kept, tail);
      JoinConcat(kept, [Join(tail)]);
      JoinOne(Join(tail));
      assert kept + tail == Absolute(package, level, fromModule, name);
    }
  }

  lemma AbsoluteByLevel(imported: string, remainder: string, package: string, parts: seq<string>)
    requires Stripped(imported) == remainder && |remainder| < |imported|
    requires parts == if package == "" then [] else Split(package)
    ensures AbsoluteImport(imported, package)
            == Join(parts[..Max(0, |parts| - (|imported| - |remainder|) + 1)]
                    + if remainder == "" then [] else [remainder])
  {
    hide Join, Split, Stripped;
  }

  lemma JoinOne(s: string)
    ensures Join([s]) == s
  {
  }

  lemma SplitPackage(package: seq<string>)
    requires Dotted(package)
    ensures Join(package) != "" && Split(Join(package)) == package
  {
    JoinNonEmpty(package);
    forall i | 0 <= i < |package|
      ensures '.' !in package[i]
    {
      assert Identifier(package[i]);
    }
    SplitJoin(package);
  }

  lemma TailStart(fromModule: seq<string>, name: string)
    requires fromModule == [] || Dotted(fromModule)
    requires Identifier(name) || name == "*"
    ensures var tail := fromModule + if name == "*" then [] else [name];
            if tail == [] then Join(tail) == "" else Join(tail) != "" && Join(tail)[0] != '.'
  {
    var tail := fromModule + if name == "*" then [] else [name];
    if tail != [] {
      assert Dotted(tail);
      JoinNonEmpty(tail);
    }
  }

  lemma EncodedTail(level: nat, fromModule: seq<string>, name: string)
    requires 0 < level
    requires fromModule == [] || Dotted(fromModule)
    requires Identifier(name) || name == "*"
    ensures ImportedName(level, Join(fromModule), name)
            == Dots(level) + Join(fromModule + if name == "*" then [] else [name])
  {
    var head := Dots(level) + Join(fromModule);
    if fromModule == [] {
      assert head == Dots(level);
      assert fromModule + [name] == [name];
      assert fromModule + [] == [];
    } else {
      JoinNonEmpty(fromModule);
      assert head[|head| - 1] == Join(fromModule)[|Join(fromModule)| - 1];
      JoinConcat(fromModule, [name]);
      assert fromModule + [] == fromModule;
    }
  }

  /** An absolute import is left as it is. */
  lemma AbsoluteImportUnchanged(fromModule: seq<string>, name: string, package: string)
    requires Dotted(fromModule) && (Identifier(name) || name == "*")
    ensures AbsoluteImport(ImportedName(0, Join(fromModule), name), package)
            == Join(fromModule + if name == "*" then [] else [name])
  {
    assert fromModule != [];
    hide Join, Split, Stripped, Dotted, Identifier;
    JoinNonEmpty(fromModule);
    assert Dots(0) + Join(fromModule) == Join(fromModule);
    var tail := fromModule + if name == "*" then [] else [name];
    TailStart(fromModule, name);
    StripDots(0, Join(tail));
    assert Dots(0) + Join(tail) == Join(tail);
    if name == "*" {
      assert tail == fromModule;
    } else {
      JoinConcat(fromModule, [name]);
      JoinOne(name);
    }
  }

  /** A level beyond the package is not an error here, as it is in Python: whatever is imported, a
      package's own or a top-level file's, is taken from the top. */
  lemma LevelBeyondPackage(package: seq<string>, level: nat, fromModule: seq<string>, name: string)
    requires package == [] || Dotted(package)
    requires level > |package|
    requires fromModule == [] || Dotted(fromModule)
    requires Identifier(name) || name == "*"
    ensures AbsoluteImport(ImportedName(level, Join(fromModule), name), Join(package))
            == Join(fromModule + if name == "*" then [] else [name])
  {
    hide Join, Split, Stripped, Dots, ImportedName, AbsoluteImport, Dotted, Identifier;
    var tail := fromModule + if name == "*" then [] else [name];
    EncodedTail(level, fromModule, name);
    TailStart(fromModule, name);
    StripDots(level, Join(tail));
    JoinNone();
    if package != [] {
      SplitPackage(package);
    }
    AbsoluteByLevel(ImportedName(level, Join(fromModule), name), Join(tail), Join(package), package);
    JoinOne(Join(tail));
    assert package[..0] == [] && [] + [Join(tail)] == [Join(tail)];
  }

  lemma JoinNone()
    ensures Join([]) == ""
  {
  }

  /** The package of an ordinary module is its name without the last part. */
  lemma {:induction false} ParentOf(parts: seq<string>)
    requires parts != [] && forall i :: 0 <= i < |parts| ==> '.' !in parts[i]
    ensures Parent(Join(parts)) == Join(parts[..|parts| - 1])
  {
    var init, last := parts[..|parts| - 1], parts[|parts| - 1];
    if init != [] {
      assert parts == init + [last];
      JoinConcat(init, [last]);
      ContainerOf(Join(init), last);
    }
  }

  lemma {:induction false} ContainerOf(head: string, last: string)
    requires '.' !in last
    ensures Container(head + "." + last) == head
    decreases |last|
  {
    var s := head + "." + last;
    assert s[|head|] == '.';
    if last == "" {
      assert s[..|s| - 1] == head;
    } else {
      assert s[|s| - 1] == last[|last| - 1];
      assert s[..|s| - 1] == head + "." + last[..|last| - 1];
      ContainerOf(head, last[..|last| - 1]);
    }
  }

  /** A name is what is before its last dot, the dot, and its last part; without a dot it is all
      there is before. */
  ghost predicate Outer(s: string, c: string) {
    if '.' in s then exists last :: '.' !in last && s == c + "." + last else c == s
  }

  lemma {:induction false} OuterSplits(s: string) returns (last: string)
    requires '.' in s
    ensures '.' !in last && s == Container(s) + "." + last
    decreases |s|
  {
    if s[|s| - 1] == '.' {
      last := "";
    } else {
      assert s == s[..|s| - 1] + [s[|s| - 1]];
      last := OuterSplits(s[..|s| - 1]);
      last := last + [s[|s| - 1]];
    }
  }

  lemma OuterExactly(s: string, c: string)
    ensures Outer(s, c) <==> c == Container(s)
  {
    if '.' in s {
      var last := OuterSplits(s);
      if c == Container(s) {
        assert s == c + "." + last;
      }
      if Outer(s, c) {
        var rest :| '.' !in rest && s == c + "." + rest;
        ContainerOf(c, rest);
      }
    }
  }

  /** A reference to a name, or to something inside it. */
  predicate Under(s: string, x: string) {
    '.' !in x && (s == x || x + "." <= s)
  }

  lemma UnderExactly(s: string, x: string)
    ensures Under(s, x) <==> First(s) == x
    ensures Under(s, x) ==> s[|x|..] == if '.' in s then "." + Rest(s) else ""
  {
    if Under(s, x) {
      FirstUnder(s, x);
    }
    if First(s) == x {
      UnderFirst(s);
    }
  }

  lemma FirstUnder(s: string, x: string)
    requires Under(s, x)
    ensures First(s) == x
  {
    if s != x {
      var tail := s[|x| + 1..];
      assert s == x + "." + tail;
      FirstOf(x, tail);
    }
  }

  lemma UnderFirst(s: string)
    ensures Under(s, First(s))
    ensures s[|First(s)|..] == if '.' in s then "." + Rest(s) else ""
  {
    hide First;
    var x := First(s);
    if '.' in s {
      assert s[|x|] == '.' && s[..|x|] == x;
      assert s == s[..|x|] + [s[|x|]] + s[|x| + 1..];
      assert Rest(s) == s[|x| + 1..];
    } else {
      assert s[..|x|] == s == x;
    }
  }

  /** No occurrence of the marker starts inside the prefix. */
  predicate StartsAfter(prefix: string, marker: string, rest: string) {
    forall i :: 0 <= i < |prefix| ==> !(marker <= (prefix + marker + rest)[i..])
  }

  /** Splitting at the marker finds the prefix if and only if the marker does not begin earlier. */
  lemma {:induction false} BeforeExactly(prefix: string, marker: string, rest: string)
    requires marker != ""
    ensures Before(prefix + marker + rest, marker) == prefix <==> StartsAfter(prefix, marker, rest)
    decreases |prefix|
  {
    hide StartsAfter;
    var s := prefix + marker + rest;
    if prefix == "" {
      assert marker <= s;
      StartsAfterNothing(marker, rest);
    } else {
      assert s[1..] == prefix[1..] + marker + rest;
      BeforeExactly(prefix[1..], marker, rest);
      StartsAfterShift(prefix, marker, rest);
      if !(marker <= s) {
        BeforeShift(s, marker);
        assert prefix == [s[0]] + prefix[1..];
      }
    }
  }

  lemma StartsAfterNothing(marker: string, rest: string)
    ensures StartsAfter("", marker, rest)
  {
  }

  lemma BeforeShift(s: string, marker: string)
    requires s != [] && !(marker <= s)
    ensures Before(s, marker) == [s[0]] + Before(s[1..], marker)
  {
  }

  lemma StartsAfterShift(prefix: string, marker: string, rest: string)
    requires prefix != ""
    ensures StartsAfter(prefix, marker, rest)
            <==> !(marker <= prefix + marker + rest) && StartsAfter(prefix[1..], marker, rest)
  {
    var s := prefix + marker + rest;
    assert s[0..] == s && s[1..] == prefix[1..] + marker + rest;
    forall i | 0 <= i < |prefix| - 1
      ensures s[1..][i..] == s[i + 1..]
    {
    }
    if StartsAfter(prefix, marker, rest) {
      assert !(marker <= s[0..]);
      forall i | 0 <= i < |prefix| - 1
        ensures !(marker <= s[1..][i..])
      {
        assert !(marker <= s[i + 1..]);
      }
    }
    if !(marker <= s) && StartsAfter(prefix[1..], marker, rest) {
      forall i | 0 <= i < |prefix|
        ensures !(marker <= s[i..])
      {
        if i > 0 {
          assert s[i..] == s[1..][i - 1..];
        }
      }
    }
  }
}
