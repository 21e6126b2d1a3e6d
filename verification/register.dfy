/**
  The decision logic of the `register` program, Programs/register.cxx: guessing a
  file's type from its name, filtering the DICOM file names down to one entry per file,
  the series rules applied to the meta data of a registered DICOM series, the choice of
  the DICOM generator, and the choice of the NIFTI matrix.

  File and directory access, the readers and writers themselves and `exit(1)` are not
  part of this model; where the source reads the first line of a `.txt` file, that line
  is a parameter (None when the file cannot be opened).
 */
module Register {

  datatype Option<T> = None | Some(value: T)

  // ---------------------------------------------------------------------------
  // File types

  const DICOMImage: int := 0
  const NIFTIImage: int := 1
  const MINCImage: int := 2
  const LastImageType: int := MINCImage
  const MNITransform: int := 3
  const ITKTransform: int := 4
  const CSVTransform: int := 5
  const TXTTransform: int := 6
  const LastTransformType: int := TXTTransform

  predicate IsImageType(t: int)
  {
    DICOMImage <= t <= LastImageType
  }

  predicate IsTransformType(t: int)
  {
    LastImageType < t <= LastTransformType
  }

  /** Every image type comes before every transform type, each range closed by its Last value. */
  lemma FileTypeOrdering()
    ensures IsImageType(DICOMImage) && IsImageType(NIFTIImage) && IsImageType(MINCImage)
    ensures IsTransformType(MNITransform) && IsTransformType(ITKTransform) &&
            IsTransformType(CSVTransform) && IsTransformType(TXTTransform)
    ensures forall t :: IsImageType(t) ==> !IsTransformType(t)
  {
  }

  /** The first line of an ITK transform file. */
  const ItkHeader: string := "#Insight Transform File V1.0"

  /** The name ends with the suffix and has at least one character before it. */
  predicate HasSuffix(name: string, suffix: string)
  {
    |name| > |suffix| && name[|name| - |suffix|..] == suffix
  }

  predicate TransformSuffix(name: string)
  {
    HasSuffix(name, ".txt") || HasSuffix(name, ".xfm") || HasSuffix(name, ".tfm") ||
    HasSuffix(name, ".mat") || HasSuffix(name, ".csv")
  }

  predicate NiftiSuffix(name: string)
  {
    HasSuffix(name, ".nii") || HasSuffix(name, ".nii.gz") || HasSuffix(name, ".hdr") ||
    HasSuffix(name, ".img") || HasSuffix(name, ".img.gz")
  }

  /** A first line names an ITK transform file when it begins with the 28-character header. */
  predicate ItkFirstLine(firstLine: Option<string>)
  {
    firstLine.Some? && |firstLine.value| >= |ItkHeader| && firstLine.value[..|ItkHeader|] == ItkHeader
  }

  /**
    The file type a name suggests.  A transform suffix gives a transform type (a `.txt`
    file is an ITK transform only when its first line says so), `.mnc` gives MINC, a
    NIFTI suffix gives NIFTI, and anything else is taken to be a DICOM file or directory.
   */
  function GuessFileType(filename: string, firstLine: Option<string>): (t: int)
    ensures IsImageType(t) || IsTransformType(t)
    ensures IsTransformType(t) <==> TransformSuffix(filename)
    ensures t == ITKTransform <==>
              HasSuffix(filename, ".tfm") || (HasSuffix(filename, ".txt") && ItkFirstLine(firstLine))
    ensures t == MINCImage <==> HasSuffix(filename, ".mnc")
    ensures t == NIFTIImage <==> NiftiSuffix(filename)
    ensures t == DICOMImage <==> !TransformSuffix(filename) && !HasSuffix(filename, ".mnc") && !NiftiSuffix(filename)
  {
    SuffixesExclusive(filename);
    if HasSuffix(filename, ".txt") then
      (if ItkFirstLine(firstLine) then ITKTransform else TXTTransform)
    else if HasSuffix(filename, ".xfm") then MNITransform
    else if HasSuffix(filename, ".tfm") then ITKTransform
    else if HasSuffix(filename, ".mat") then TXTTransform
    else if HasSuffix(filename, ".csv") then CSVTransform
    else if HasSuffix(filename, ".mnc") then MINCImage
    else if NiftiSuffix(filename) then NIFTIImage
    else DICOMImage
  }

  /** The last four characters decide every suffix, so a name has at most one of them. */
  lemma SuffixesExclusive(name: string)
    ensures HasSuffix(name, ".nii.gz") ==> name[|name| - 4..] == "i.gz"
    ensures HasSuffix(name, ".img.gz") ==> name[|name| - 4..] == "g.gz"
  {
    if HasSuffix(name, ".nii.gz") {
      assert name[|name| - 4..] == name[|name| - 7..][3..];
    }
    if HasSuffix(name, ".img.gz") {
      assert name[|name| - 4..] == name[|name| - 7..][3..];
    }
  }

  /** A suffix on its own is not enough: a bare ".xfm" or ".nii.gz" is taken for DICOM. */
  lemma BareSuffixIsDicom(firstLine: Option<string>)
    ensures GuessFileType(".xfm", firstLine) == DICOMImage
    ensures GuessFileType(".nii.gz", firstLine) == DICOMImage
  {
  }

  // ---------------------------------------------------------------------------
  // DICOM file names

  /**
    The names in order of first occurrence, each once: every name of s is kept the
    first time it is seen and skipped afterwards.
   */
  function Dedup(s: seq<string>): (d: seq<string>)
    ensures forall x :: x in d <==> x in s
    ensures forall i, j :: 0 <= i < j < |d| ==> d[i] != d[j]
  {
    if |s| == 0 then []
    else
      var d := Dedup(s[..|s| - 1]);
      assert s == s[..|s| - 1] + [s[|s| - 1]];
      if s[|s| - 1] in d then d else d + [s[|s| - 1]]
  }

  /** The index of the first occurrence of x in s. */
  function FirstIndex(s: seq<string>, x: string): (k: int)
    requires x in s
    ensures 0 <= k < |s| && s[k] == x && forall m :: 0 <= m < k ==> s[m] != x
  {
    if s[0] == x then 0 else 1 + FirstIndex(s[1..], x)
  }

  /** Dedup keeps the order in which names first occur. */
  lemma {:induction false} DedupKeepsFirstOccurrenceOrder(s: seq<string>)
    ensures forall i, j :: 0 <= i < j < |Dedup(s)| ==> FirstIndex(s, Dedup(s)[i]) < FirstIndex(s, Dedup(s)[j])
  {
    if |s| > 0 {
      var p := s[..|s| - 1];
      var last := s[|s| - 1];
      DedupKeepsFirstOccurrenceOrder(p);
      var d := Dedup(s);
      var dp := Dedup(p);
      forall y | y in p
        ensures FirstIndex(s, y) == FirstIndex(p, y)
      {
        FirstIndexOfPrefix(p, s, y);
      }
      if last !in dp {
        assert last !in p;
        assert d == dp + [last];
        forall i, j | 0 <= i < j < |d|
          ensures FirstIndex(s, d[i]) < FirstIndex(s, d[j])
        {
          if j < |dp| {
            assert d[i] == dp[i] && d[j] == dp[j];
          } else {
            assert d[i] in p;
            assert FirstIndex(s, d[j]) == |s| - 1;
          }
        }
      }
    }
  }

  /** The first occurrence of a name in a prefix is its first occurrence in the whole. */
  lemma FirstIndexOfPrefix(p: seq<string>, s: seq<string>, y: string)
    requires |p| <= |s| && s[..|p|] == p && y in p
    ensures FirstIndex(s, y) == FirstIndex(p, y)
  {
    var k := FirstIndex(p, y);
    assert s[k] == y;
  }

  /** The file name of each frame, looked up through the reader's file index array. */
  function FrameFileNames(names: seq<string>, fileIndex: seq<int>): (frames: seq<string>)
    requires forall i :: 0 <= i < |fileIndex| ==> 0 <= fileIndex[i] < |names|
    ensures |frames| == |fileIndex| && forall i :: 0 <= i < |fileIndex| ==> frames[i] == names[fileIndex[i]]
  {
    seq(|fileIndex|, i requires 0 <= i < |fileIndex| => names[fileIndex[i]])
  }

  /**
    The filtered list of files handed back to the DICOM reader: for each frame, its file
    name is appended unless a linear search finds it already there.
   */
  method FilterFileNames(names: seq<string>, fileIndex: seq<int>) returns (fileNames: seq<string>)
    requires forall i :: 0 <= i < |fileIndex| ==> 0 <= fileIndex[i] < |names|
    ensures fileNames == Dedup(FrameFileNames(names, fileIndex))
  {
    ghost var frames := FrameFileNames(names, fileIndex);
    fileNames := [];
    var i := 0;
    while i < |fileIndex|
      invariant 0 <= i <= |fileIndex|
      invariant fileNames == Dedup(frames[..i])
    {
      var newFileName := names[fileIndex[i]];
      var alreadyThere := false;
      var j := 0;
      while j < |fileNames|
        invariant 0 <= j <= |fileNames|
        invariant !alreadyThere && newFileName !in fileNames[..j]
      {
        if newFileName == fileNames[j] {
          alreadyThere := true;
          break;
        }
        j := j + 1;
      }
      assert alreadyThere <==> newFileName in fileNames by {
        if !alreadyThere {
          assert fileNames[..j] == fileNames;
        }
      }
      assert frames[..i + 1][..i] == frames[..i];
      if !alreadyThere {
        fileNames := fileNames + [newFileName];
      }
      i := i + 1;
    }
    assert frames[..i] == frames;
  }

  // ---------------------------------------------------------------------------
  // Meta data of the registered series

  /** The series number of the registered series: 1000 more, in unsigned 32-bit arithmetic. */
  function RegisteredSeriesNumber(n: nat): (r: nat)
    requires n < 0x1_0000_0000
    ensures r < 0x1_0000_0000
    ensures n + 1000 < 0x1_0000_0000 ==> r == n + 1000
    ensures n + 1000 >= 0x1_0000_0000 ==> r + 0x1_0000_0000 == n + 1000
  {
    (n + 1000) % 0x1_0000_0000
  }

  /**
    The description of the registered series: " REG" appended when the result stays
    under 64 characters, the description unchanged otherwise.
   */
  function RegisteredDescription(d: string): (r: string)
    ensures r == d || (|r| == |d| + 4 && |r| < 64 && r[..|d|] == d && r[|d|..] == " REG")
    ensures r != d <==> |d| + 4 < 64
  {
    var extended := d + " REG";
    if |extended| < 64 then extended else d
  }

  /** The generator the DICOM writer gets. */
  datatype Generator = NoGenerator | CTGenerator | MRGenerator

  const CTImageStorage: string := "1.2.840.10008.5.1.4.1.1.2"
  const EnhancedCTImageStorage: string := "1.2.840.10008.5.1.4.1.1.2.1"
  const LegacyCTImageStorage: string := "1.2.840.10008.5.1.4.1.1.2.2"
  const MRImageStorage: string := "1.2.840.10008.5.1.4.1.1.4"
  const EnhancedMRImageStorage: string := "1.2.840.10008.5.1.4.1.1.4.1"
  const EnhancedMRColorImageStorage: string := "1.2.840.10008.5.1.4.1.1.4.4"

  /** The CT storage classes select the CT generator, the MR ones the MR generator, others none. */
  function GeneratorFor(sopClass: string): (g: Generator)
    ensures g == CTGenerator <==>
              sopClass in {CTImageStorage, EnhancedCTImageStorage, LegacyCTImageStorage}
    ensures g == MRGenerator <==>
              sopClass in {MRImageStorage, EnhancedMRImageStorage, EnhancedMRColorImageStorage}
  {
    if sopClass == CTImageStorage || sopClass == EnhancedCTImageStorage || sopClass == LegacyCTImageStorage then
      CTGenerator
    else if sopClass == MRImageStorage || sopClass == EnhancedMRImageStorage ||
            sopClass == EnhancedMRColorImageStorage then
      MRGenerator
    else NoGenerator
  }

  /** The attributes of the DICOM meta data the writer touches. */
  class DicomMetaData {
    var seriesNumber: nat
    var seriesDescription: string
    var frameOfReferenceUID: string
    var sopClassUID: string

    predicate Valid()
      reads this
    {
      seriesNumber < 0x1_0000_0000
    }

    constructor (number: nat, description: string, frame: string, sopClass: string)
      requires number < 0x1_0000_0000
      ensures Valid()
      ensures seriesNumber == number && seriesDescription == description
      ensures frameOfReferenceUID == frame && sopClassUID == sopClass
    {
      seriesNumber, seriesDescription := number, description;
      frameOfReferenceUID, sopClassUID := frame, sopClass;
    }
  }

  /**
    The meta data of the written series and its generator.  With a DICOM target the
    meta data is a copy of the target's, renumbered and with its description marked,
    and the generator follows the SOP class; with a DICOM source its frame of reference
    is taken over.
   */
  method PrepareMetaData(target: DicomMetaData?, sourceFrame: Option<string>)
    returns (meta: DicomMetaData, generator: Generator)
    requires target != null ==> target.Valid()
    ensures fresh(meta) && meta.Valid()
    ensures target != null ==>
              meta.seriesNumber == RegisteredSeriesNumber(target.seriesNumber) &&
              meta.seriesDescription == RegisteredDescription(target.seriesDescription) &&
              meta.sopClassUID == target.sopClassUID &&
              generator == GeneratorFor(target.sopClassUID)
    ensures target == null ==> generator == NoGenerator
    ensures sourceFrame.Some? ==> meta.frameOfReferenceUID == sourceFrame.value
    ensures sourceFrame.None? && target != null ==> meta.frameOfReferenceUID == target.frameOfReferenceUID
  {
    if target != null {
      meta := new DicomMetaData(target.seriesNumber, target.seriesDescription,
                                target.frameOfReferenceUID, target.sopClassUID);
      meta.seriesNumber := (meta.seriesNumber + 1000) % 0x1_0000_0000;
      var seriesDescription := meta.seriesDescription + " REG";
      if |seriesDescription| < 64 {
        meta.seriesDescription := seriesDescription;
      }
    } else {
      meta := new DicomMetaData(0, "", "", "");
    }
    if sourceFrame.Some? {
      meta.frameOfReferenceUID := sourceFrame.value;
    }
    generator := NoGenerator;
    if target != null {
      var sopClass := meta.sopClassUID;
      if sopClass == CTImageStorage || sopClass == EnhancedCTImageStorage || sopClass == LegacyCTImageStorage {
        generator := CTGenerator;
      } else if sopClass == MRImageStorage || sopClass == EnhancedMRImageStorage ||
                sopClass == EnhancedMRColorImageStorage {
        generator := MRGenerator;
      }
    }
  }

  // ---------------------------------------------------------------------------
  // NIFTI matrix

  const Identity: seq<real> := [1.0, 0.0, 0.0, 0.0, 0.0, 1.0, 0.0, 0.0, 0.0, 0.0, 1.0, 0.0, 0.0, 0.0, 0.0, 1.0]

  /**
    The matrix chosen when reading a NIFTI file, as written: the buffer holding it is
    static, so `previous` is what the last read left there (the identity before the
    first read).  The QForm wins over the SForm; with neither, the buffer is left as it
    was.
   */
  function NiftiMatrixAsWritten(previous: seq<real>, qform: Option<seq<real>>, sform: Option<seq<real>>): (m: seq<real>)
    ensures qform.Some? ==> m == qform.value
    ensures qform.None? && sform.Some? ==> m == sform.value
    ensures qform.None? && sform.None? ==> m == previous
  {
    match qform
    case Some(q) => q
    case None => match sform
      case Some(s) => s
      case None => previous
  }

  /** The matrix intended for a NIFTI file: its QForm, else its SForm, else the identity. */
  function NiftiMatrix(qform: Option<seq<real>>, sform: Option<seq<real>>): (m: seq<real>)
    ensures qform.Some? ==> m == qform.value
    ensures qform.None? && sform.Some? ==> m == sform.value
    ensures qform.None? && sform.None? ==> m == Identity
  {
    NiftiMatrixAsWritten(Identity, qform, sform)
  }

  /**
    The two agree as long as the static buffer still holds the identity, which is so
    for the first NIFTI file read.
   */
  lemma NiftiMatrixFirstRead(qform: Option<seq<real>>, sform: Option<seq<real>>)
    ensures NiftiMatrixAsWritten(Identity, qform, sform) == NiftiMatrix(qform, sform)
  {
  }

  /**
    The static buffer leaks between reads: after a file with a scaling QForm, a file
    with neither QForm nor SForm gets that QForm instead of the identity.
   */
  lemma NiftiMatrixLeaksBetweenReads()
    ensures var q := [2.0, 0.0, 0.0, 0.0, 0.0, 2.0, 0.0, 0.0, 0.0, 0.0, 2.0, 0.0, 0.0, 0.0, 0.0, 1.0];
            var afterFirst := NiftiMatrixAsWritten(Identity, Some(q), None);
            NiftiMatrixAsWritten(afterFirst, None, None) == q &&
            NiftiMatrixAsWritten(afterFirst, None, None) != NiftiMatrix(None, None)
  {
    var q := [2.0, 0.0, 0.0, 0.0, 0.0, 2.0, 0.0, 0.0, 0.0, 0.0, 2.0, 0.0, 0.0, 0.0, 0.0, 1.0];
    assert q[0] != Identity[0];
  }
}
