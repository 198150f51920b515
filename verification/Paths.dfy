/**
 Paths as the file system sees them: what joining a name to a directory leads to.

 Both separators count, a colon in second place marks a drive, and a colon anywhere
 else names a stream of the file before it. This is how Windows reads a path, where the
 archive is unpacked; `Path::join` replaces the directory by a name that has a drive, and
 its parts by a name that starts with a separator.
 */
module Paths {
  import opened Common

  predicate Separator(c: char) {
    c == '/' || c == '\\'
  }

  /** A place in the file system: drive, parts from the root down, and a stream of the file if one is named. */
  datatype Place = Place(drive: Option<char>, parts: seq<string>, stream: Option<string>)

  /** The text up to the first separator. */
  function Head(s: string): string {
    if s == [] || Separator(s[0]) then [] else [s[0]] + Head(s[1..])
  }

  function Rest(s: string): (r: string)
    ensures |r| <= |s|
  {
    if s == [] || Separator(s[0]) then s else Rest(s[1..])
  }

  /** The parts between separators; empty ones and `.` stay where they are and are dropped. */
  function Parts(s: string): seq<string>
    decreases |s|, 1
  {
    if s == [] then []
    else if Separator(s[0]) then Parts(s[1..])
    else
      HeadShrinks(s);
      (if Head(s) == "." then [] else [Head(s)]) + Parts(Rest(s))
  }

  lemma HeadShrinks(s: string)
    requires s != [] && !Separator(s[0])
    ensures |Rest(s)| < |s|
  {
  }

  predicate HasDrive(name: string) {
    |name| >= 2 && name[1] == ':'
  }

  /** The text up to the first colon. */
  function BeforeColon(s: string): string {
    if s == [] || s[0] == ':' then [] else [s[0]] + BeforeColon(s[1..])
  }

  function AfterColon(s: string): Option<string> {
    if s == [] then None else if s[0] == ':' then Some(s[1..]) else AfterColon(s[1..])
  }

  /** `Path::join`, as the file system reads the result. */
  function Joined(dir: Place, name: string): Place {
    if HasDrive(name) then Place(Some(name[0]), Parts(BeforeColon(name[2..])), AfterColon(name[2..]))
    else if name != [] && Separator(name[0]) then Place(dir.drive, Parts(BeforeColon(name)), AfterColon(name))
    else Place(dir.drive, dir.parts + Parts(BeforeColon(name)), AfterColon(name))
  }

  /** Joined to any directory, the name leads to a file of that very name in it. */
  ghost predicate StaysInside(name: string) {
    && name != "" && name != "." && name != ".."
    && forall dir: Place :: Joined(dir, name) == Place(dir.drive, dir.parts + [name], None)
  }

  predicate NoSeparator(s: string) {
    forall i :: 0 <= i < |s| ==> !Separator(s[i])
  }

  predicate NoColon(s: string) {
    forall i :: 0 <= i < |s| ==> s[i] != ':'
  }

  lemma {:induction false} HeadIff(s: string)
    ensures NoSeparator(s) ==> Head(s) == s && Rest(s) == []
    ensures NoSeparator(Head(s))
    decreases |s|
  {
    if s != [] && !Separator(s[0]) {
      HeadIff(s[1..]);
      assert s == [s[0]] + s[1..];
    }
  }

  lemma {:induction false} ColonIff(s: string)
    ensures NoColon(s) ==> BeforeColon(s) == s && AfterColon(s) == None
    ensures !NoColon(s) ==> AfterColon(s).Some?
    decreases |s|
  {
    if s != [] && s[0] != ':' {
      ColonIff(s[1..]);
      assert s == [s[0]] + s[1..];
    }
  }

  /** No part contains a separator. */
  lemma {:induction false} PartsArePlain(s: string)
    ensures forall i :: 0 <= i < |Parts(s)| ==> NoSeparator(Parts(s)[i])
    decreases |s|
  {
    if s != [] {
      if Separator(s[0]) {
        PartsArePlain(s[1..]);
      } else {
        HeadShrinks(s);
        HeadIff(s);
        PartsArePlain(Rest(s));
      }
    }
  }

  lemma PartsOfPlain(s: string)
    requires s != "" && s != "." && NoSeparator(s)
    ensures Parts(s) == [s]
  {
    HeadIff(s);
  }

  /** A name stays inside exactly if it has no separator and no colon and is not empty, `.` or `..`. */
  lemma StaysInsideIff(name: string)
    ensures StaysInside(name) <==> name != "" && name != "." && name != ".." && NoSeparator(name) && NoColon(name)
  {
    ColonIff(name);
    if name != "" && name != "." && name != ".." && NoSeparator(name) && NoColon(name) {
      PartsOfPlain(name);
    }
    if StaysInside(name) {
      var root := Place(None, [], None);
      assert Joined(root, name) == Place(root.drive, root.parts + [name], None);
      InsideIsPlain(name);
    }
  }

  lemma InsideIsPlain(name: string)
    requires Joined(Place(None, [], None), name) == Place(None, [name], None)
    ensures NoSeparator(name) && NoColon(name)
  {
    hide Parts;
    assert !HasDrive(name);
    ColonIff(name);
    assert NoColon(name);
    PartsArePlain(name);
    assert [] + Parts(name) == Parts(name);
    assert Parts(name)[0] == name;
  }
}
