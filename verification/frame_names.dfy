/**
 * The names the frame extractors of `Video/utils/displacement_functions.py`
 * give the images they save, and how `organizza_frames` reads the frame
 * number back from them.
 */
module FrameNames {
  import opened Base
  import opened Text
  import FrameFolders
  import opened Extraction

  /** `extract_specific_frames2` names a frame by its shifted position. */
  function FrameFileName(s: Seek): string
  {
    "frame_" + ShowInt(s.position) + ".png"
  }

  /** The `_512` variants name it by the output folder and the seek index. */
  function CarFrameFileName(car: string, s: Seek): string
  {
    car + "_frame_" + ShowInt(s.frameIdx) + ".png"
  }

  /** The two-squares variant: `_l` for the left square, `_r` for the right. */
  function SideFileNames(car: string, s: Seek): (string, string)
  {
    (car + "_l" + "_frame_" + ShowInt(s.frameIdx) + ".png",
     car + "_r" + "_frame_" + ShowInt(s.frameIdx) + ".png")
  }

  /** `organizza_frames` reads the position back from the `extract_specific_frames2` name. */
  lemma FrameFileNumbered(s: Seek)
    requires s.position >= 0
    ensures FrameFolders.FrameNumber(FrameFileName(s)) == s.position
  {
    var n: nat := s.position;
    var digits := ShowNat(n);
    var name := "frame_" + digits + ".png";
    assert name == FrameFileName(s);
    assert name[0..6] == "frame_" && name[6] == digits[0];
    assert name[6..6 + |digits|] == digits;
    assert FrameFolders.MatchAt(name, 0);
    FrameFolders.FirstMatchIs(name, 0, 0);
    assert name[6 + |digits|] == '.';
    FrameFolders.DigitRunIs(name, 6, |digits|);
    DigitsValueShowNat(n);
  }

  /** No `frame_` followed by a digit starts anywhere in `name`. */
  predicate NoFrameNumber(name: string)
  {
    forall k :: 0 <= k < |name| ==> !FrameFolders.MatchAt(name, k)
  }

  /** A two-letter tag such as `_l` puts no `frame_<digit>` after a name. */
  lemma TagKeepsNoFrameNumber(car: string, tag: string)
    requires NoFrameNumber(car) && |tag| == 2 && tag[0] == '_' && !IsDigit(tag[1])
    ensures NoFrameNumber(car + tag)
  {
    var name := car + tag;
    forall k | 0 <= k < |name| ensures !FrameFolders.MatchAt(name, k) {
      if k + 7 <= |car| {
        assert name[k..k + 6] == car[k..k + 6] && name[k + 6] == car[k + 6];
        assert !FrameFolders.MatchAt(car, k);
      } else if k + 6 == |car| {
        assert name[k + 6] == '_';
      } else if k + 6 == |car| + 1 {
        assert name[k + 6] == tag[1];
      }
    }
  }

  /**
   * The numbering `organizza_frames` sorts by reads back the seek index
   * from every name the `_512` variants write, as long as the output
   * folder's own name holds no `frame_<digit>`.
   */
  lemma CarFrameNumbered(car: string, s: Seek)
    requires NoFrameNumber(car) && s.frameIdx >= 0
    ensures FrameFolders.FrameNumber(CarFrameFileName(car, s)) == s.frameIdx
  {
    FrameFolders.FrameNumberOfName(car, s.frameIdx);
  }

  /** The same for both names the two-squares variant writes. */
  lemma SideFramesNumbered(car: string, s: Seek)
    requires NoFrameNumber(car) && s.frameIdx >= 0
    ensures FrameFolders.FrameNumber(SideFileNames(car, s).0) == s.frameIdx
    ensures FrameFolders.FrameNumber(SideFileNames(car, s).1) == s.frameIdx
  {
    TagKeepsNoFrameNumber(car, "_l");
    TagKeepsNoFrameNumber(car, "_r");
    FrameFolders.FrameNumberOfName(car + "_l", s.frameIdx);
    FrameFolders.FrameNumberOfName(car + "_r", s.frameIdx);
  }
}
