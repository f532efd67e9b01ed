/** flamapy/core/utils.py: the extension of a file name is what `rsplit` leaves
    after the last ".". */
module FlamapyUtils {
  import opened Wrappers
  import Text

  /** `filename.rsplit(".", maxsplit=1)[-1]`. */
  function ExtractFilenameExtension(filename: string): (r: string)
    ensures '.' !in r
    ensures |r| <= |filename| && filename[|filename| - |r|..] == r
    ensures '.' !in filename ==> r == filename
    ensures '.' in filename ==> filename == Text.RSplitOnce(filename, '.')[0] + "." + r
    ensures |filename| > 0 && filename[|filename| - 1] == '.' ==> r == ""
  {
    var parts := Text.RSplitOnce(filename, '.');
    match Text.LastIndex(filename, '.')
    case None => parts[0]
    case Some(k) =>
      assert filename == filename[..k] + "." + filename[k + 1..];
      parts[1]
  }
}

/** famapy/core/utils.py: the extension is the last piece of `split(".")`. */
module FamapyUtils {
  import Text
  import FlamapyUtils

  /** `filename.split('.')[-1]`. */
  function ExtractFilenameExtension(filename: string): (r: string)
    ensures r == Text.Split(filename, '.')[|Text.Split(filename, '.')| - 1]
    ensures '.' !in r
    ensures |r| <= |filename| && filename[|filename| - |r|..] == r
    ensures '.' !in filename ==> r == filename
  {
    Text.LastSegmentAfterLastIndex(filename, '.');
    Text.LastSegment(filename, '.')
  }

  /** The two generations compute the same extension for every file name. */
  lemma AgreesWithRsplit(filename: string)
    ensures ExtractFilenameExtension(filename) == FlamapyUtils.ExtractFilenameExtension(filename)
  {
    Text.LastSegmentAfterLastIndex(filename, '.');
  }

  /** Only the text after the last dot is kept. */
  lemma CompoundExtension()
    ensures ExtractFilenameExtension("a.tar.gz") == "gz"
  {
    Text.LastSegmentUnique("a.tar.gz", '.', 6);
  }
}
