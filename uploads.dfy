/** Upload file-name validation: a name is accepted when the text after its
    last '.', lower-cased, is one of the accepted extensions. */
module Uploads {
  import opened Common

  /** ALLOWED_EXTENSIONS. */
  const AllowedExtensions: set<string> :=
    {"png", "jpg", "jpeg", "gif", "bmp", "webp", "mp4", "avi", "mov", "wmv", "flv", "webm"}

  /** The extensions is_video_file accepts. */
  const VideoExtensions: set<string> := {"mp4", "avi", "mov", "wmv", "flv", "webm"}

  /** filename.rsplit('.', 1)[1] when the name contains a dot: the text after
      the last '.'. */
  function Extension(name: string): (ext: Option<string>)
    ensures ext.Some? <==> '.' in name
    ensures ext.Some? ==> |ext.value| < |name| && name[|name| - |ext.value| - 1] == '.'
                          && ext.value == name[|name| - |ext.value|..] && '.' !in ext.value
  {
    if name == [] then None
    else if name[|name| - 1] == '.' then Some([])
    else
      match Extension(name[..|name| - 1])
      case None => None
      case Some(e) => Some(e + [name[|name| - 1]])
  }

  /** The text after position i is what follows the last '.' exactly when a
      '.' stands at i and none after it. */
  predicate DotIsLast(name: string, i: int) {
    0 <= i < |name| && name[i] == '.' && '.' !in name[i + 1..]
  }

  predicate AllowedFile(name: string) {
    '.' in name && Lower(Extension(name).value) in AllowedExtensions
  }

  predicate IsVideoFile(name: string) {
    '.' in name && Lower(Extension(name).value) in VideoExtensions
  }

  /** A dot after position i lies in the text after i. */
  lemma LaterDot(name: string, i: int, j: int)
    requires 0 <= i < j < |name| && name[j] == '.'
    ensures '.' in name[i + 1..]
  {
    assert name[i + 1..][j - i - 1] == name[j];
  }

  /** There is at most one last dot. */
  lemma DotIsLastUnique(name: string, i: int, j: int)
    requires DotIsLast(name, i) && DotIsLast(name, j)
    ensures i == j
  {
    if i < j {
      LaterDot(name, i, j);
      assert false;
    } else if j < i {
      LaterDot(name, j, i);
      assert false;
    }
  }

  /** allowed_file holds exactly when the name has a last dot and the
      lower-cased text after it is an accepted extension. */
  lemma AllowedFileIff(name: string)
    ensures AllowedFile(name) <==>
              exists i :: DotIsLast(name, i) && Lower(name[i + 1..]) in AllowedExtensions
  {
    if '.' in name {
      var e := Extension(name).value;
      var i := |name| - |e| - 1;
      assert DotIsLast(name, i);
      forall j | DotIsLast(name, j)
        ensures name[j + 1..] == e
      {
        DotIsLastUnique(name, i, j);
      }
    }
  }

  /** Likewise for is_video_file. */
  lemma IsVideoFileIff(name: string)
    ensures IsVideoFile(name) <==>
              exists i :: DotIsLast(name, i) && Lower(name[i + 1..]) in VideoExtensions
  {
    if '.' in name {
      var e := Extension(name).value;
      var i := |name| - |e| - 1;
      assert DotIsLast(name, i);
      forall j | DotIsLast(name, j)
        ensures name[j + 1..] == e
      {
        DotIsLastUnique(name, i, j);
      }
    }
  }

  /** Every video name passes allowed_file: the video extensions are
      accepted extensions. */
  lemma VideoIsAllowed(name: string)
    requires IsVideoFile(name)
    ensures AllowedFile(name)
  {
    assert VideoExtensions <= AllowedExtensions;
  }

  /** For a name made of any stem, a dot and a dot-free tail, the tail is
      the extension. */
  lemma {:induction false} ExtensionOfLastSegment(stem: string, ext: string)
    requires '.' !in ext
    ensures Extension(stem + "." + ext) == Some(ext)
    decreases |ext|
  {
    var name := stem + "." + ext;
    if ext == [] {
      assert name[|name| - 1] == '.';
    } else {
      var front := ext[..|ext| - 1];
      assert name[..|name| - 1] == stem + "." + front;
      assert name[|name| - 1] == ext[|ext| - 1];
      assert ext == front + [ext[|ext| - 1]];
      assert '.' !in front by {
        forall i | 0 <= i < |front| ensures front[i] != '.' {
          assert front[i] == ext[i];
        }
      }
      ExtensionOfLastSegment(stem, front);
    }
  }

  /** Only the text after the last dot decides, lower-cased. */
  lemma LastSegmentDecides(stem: string, ext: string)
    requires '.' !in ext
    ensures AllowedFile(stem + "." + ext) <==> Lower(ext) in AllowedExtensions
    ensures IsVideoFile(stem + "." + ext) <==> Lower(ext) in VideoExtensions
  {
    assert (stem + "." + ext)[|stem|] == '.';
    ExtensionOfLastSegment(stem, ext);
  }

  /** Case does not matter: two extensions that lower-case alike are
      accepted alike ("a.JPG" as "a.jpg"). */
  lemma UpperCaseExtensionAllowed(stem: string, ext: string, ext': string)
    requires '.' !in ext && '.' !in ext' && Lower(ext) == Lower(ext')
    ensures AllowedFile(stem + "." + ext) == AllowedFile(stem + "." + ext')
    ensures IsVideoFile(stem + "." + ext) == IsVideoFile(stem + "." + ext')
  {
    LastSegmentDecides(stem, ext);
    LastSegmentDecides(stem, ext');
  }

  /** Only the text after the last dot counts: whatever comes before it,
      inner extensions included ("a.png.exe" as "b.exe"), makes no
      difference. */
  lemma InnerExtensionIgnored(stem: string, stem': string, ext: string)
    requires '.' !in ext
    ensures AllowedFile(stem + "." + ext) == AllowedFile(stem' + "." + ext)
    ensures IsVideoFile(stem + "." + ext) == IsVideoFile(stem' + "." + ext)
  {
    LastSegmentDecides(stem, ext);
    LastSegmentDecides(stem', ext);
  }
}
