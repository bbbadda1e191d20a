/**
 * The name split used for point properties: `Fullname.split('/')`. A GEDCOM
 * full name writes the surname between slashes (`John /Smith/`), so segment 0
 * is the given-name part and segment 1 the surname.
 */
module GeoNames {
  import opened Types

  /** JavaScript `s.split('/')`: the segments between slashes, at least one. */
  function Split(s: string): (parts: seq<string>)
    ensures |parts| >= 1
    decreases |s|
  {
    if s == [] then [""]
    else if s[0] == '/' then [""] + Split(s[1..])
    else
      var rest := Split(s[1..]);
      [[s[0]] + rest[0]] + rest[1..]
  }

  /** Joins segments with '/', the inverse of `Split`. */
  function Join(parts: seq<string>): string
    requires |parts| >= 1
  {
    if |parts| == 1 then parts[0] else parts[0] + "/" + Join(parts[1..])
  }

  /** Splitting loses nothing: joining the segments gives back the name. */
  lemma {:induction false} JoinSplit(s: string)
    ensures Join(Split(s)) == s
    decreases |s|
  {
    if s != [] {
      JoinSplit(s[1..]);
      var rest := Split(s[1..]);
      if s[0] != '/' {
        if |rest| > 1 {
          assert ([[s[0]] + rest[0]] + rest[1..])[1..] == rest[1..];
        }
        assert Join(Split(s)) == [s[0]] + Join(rest);
      } else {
        assert ([""] + rest)[1..] == rest;
      }
      assert s == [s[0]] + s[1..];
    }
  }

  /** No segment contains a '/', and there is one more segment than there are slashes. */
  lemma {:induction false} SplitSegments(s: string)
    ensures forall i :: 0 <= i < |Split(s)| ==> '/' !in Split(s)[i]
    ensures |Split(s)| > 1 <==> '/' in s
    decreases |s|
  {
    if s != [] {
      SplitSegments(s[1..]);
      var rest := Split(s[1..]);
      if s[0] != '/' {
        var parts := Split(s);
        forall i | 0 <= i < |parts| ensures '/' !in parts[i] {
          if i > 0 {
            assert parts[i] == rest[i];
          }
        }
        assert '/' in s <==> '/' in s[1..] by {
          assert s == [s[0]] + s[1..];
        }
      } else {
        var parts := Split(s);
        forall i | 0 <= i < |parts| ensures '/' !in parts[i] {
          if i > 0 {
            assert parts[i] == rest[i - 1];
          }
        }
      }
    }
  }

  /** `firstName`: `Fullname.split('/')[0]`. */
  function FirstName(fullname: string): string {
    Split(fullname)[0]
  }

  /** `name`: `Fullname.split('/')[1]`, undefined when the name has no '/'. */
  function FamilyName(fullname: string): Option<string> {
    var parts := Split(fullname);
    if |parts| > 1 then Some(parts[1]) else None
  }

  /**
   * The first name is the text before the first '/', the whole name when there is none.
   */
  lemma FirstNameBeforeSlash(fullname: string)
    ensures FirstName(fullname) <= fullname
    ensures '/' !in FirstName(fullname)
    ensures |FirstName(fullname)| < |fullname| ==> fullname[|FirstName(fullname)|] == '/'
    ensures |FirstName(fullname)| == |fullname| <==> '/' !in fullname
  {
    var parts := Split(fullname);
    SplitSegments(fullname);
    JoinSplit(fullname);
    if |parts| > 1 {
      assert fullname == parts[0] + "/" + Join(parts[1..]);
      assert fullname[|parts[0]|] == '/';
    }
  }

  /**
   * The surname is absent exactly when the name has no '/'; otherwise it is the
   * text between the first '/' and the next one (or the end).
   */
  lemma FamilyNameBetweenSlashes(fullname: string)
    ensures FamilyName(fullname).None? <==> '/' !in fullname
    ensures FamilyName(fullname).Some? ==>
      var start := |FirstName(fullname)| + 1;
      var name := FamilyName(fullname).value;
      && start + |name| <= |fullname|
      && fullname[start..start + |name|] == name
      && '/' !in name
      && (start + |name| < |fullname| ==> fullname[start + |name|] == '/')
  {
    var parts := Split(fullname);
    SplitSegments(fullname);
    JoinSplit(fullname);
    if |parts| > 1 {
      var start := |parts[0]| + 1;
      var tail := Join(parts[1..]);
      assert fullname == parts[0] + "/" + tail;
      assert fullname[start..] == tail;
      if |parts| > 2 {
        assert parts[1..][1..] == parts[2..];
        assert tail == parts[1] + "/" + Join(parts[2..]);
        assert tail[|parts[1]|] == '/';
      }
      assert tail[..|parts[1]|] == parts[1];
    }
  }
}
