/**
 * `generate_biometric_id.py`: of the faces detected in an image, encode the
 * one with the largest box, and print its encoding as JSON. The detector,
 * the encoder and `json.dumps` are outside the model: the detected boxes
 * are an input and the other two are uninterpreted functions.
 */
module BiometricId {
  import opened Wrappers

  /** A `(top, right, bottom, left)` tuple from `face_locations`. */
  datatype FaceLocation = FaceLocation(top: int, right: int, bottom: int, left: int)

  function Area(face: FaceLocation): int
  {
    (face.bottom - face.top) * (face.right - face.left)
  }

  /** Face `k` is the first of faces[..n] with the largest area, and that area is positive. */
  ghost predicate IsLargestIn(faces: seq<FaceLocation>, n: nat, k: int)
    requires n <= |faces|
  {
    && 0 <= k < n
    && Area(faces[k]) > 0
    && (forall j | 0 <= j < n :: Area(faces[j]) <= Area(faces[k]))
    && (forall j | 0 <= j < k :: Area(faces[j]) < Area(faces[k]))
  }

  ghost predicate IsLargestFace(faces: seq<FaceLocation>, k: int)
  {
    IsLargestIn(faces, |faces|, k)
  }

  /** At most one face is the largest face. */
  lemma LargestFaceUnique(faces: seq<FaceLocation>, k1: int, k2: int)
    requires IsLargestFace(faces, k1) && IsLargestFace(faces, k2)
    ensures k1 == k2
  {
  }

  /**
   * Lines 12-31: no faces gives None; otherwise a running maximum that
   * starts at 0 and moves only on a strictly larger area, so the first face
   * with the largest positive area is encoded, and None is returned when no
   * face has a positive area.
   */
  method GenerateBiometricId(faces: seq<FaceLocation>, encode: FaceLocation -> seq<real>,
                             dumps: seq<real> -> string)
    returns (biometricIdJson: Option<string>)
    ensures faces == [] ==> biometricIdJson == None
    ensures biometricIdJson.None? <==> forall j | 0 <= j < |faces| :: Area(faces[j]) <= 0
    ensures biometricIdJson.Some? ==>
      exists k :: IsLargestFace(faces, k) && biometricIdJson.value == dumps(encode(faces[k]))
  {
    if faces == [] {
      return None;
    }
    var largestFaceArea := 0;
    var largestFaceEncoding: Option<seq<real>> := None;
    ghost var largestIndex := 0;
    for i := 0 to |faces|
      invariant largestFaceEncoding.None? ==>
        largestFaceArea == 0 && forall j | 0 <= j < i :: Area(faces[j]) <= 0
      invariant largestFaceEncoding.Some? ==>
        && IsLargestIn(faces, i, largestIndex)
        && largestFaceArea == Area(faces[largestIndex])
        && largestFaceEncoding.value == encode(faces[largestIndex])
    {
      var face := faces[i];
      var faceArea := (face.bottom - face.top) * (face.right - face.left);
      if faceArea > largestFaceArea {
        largestFaceArea := faceArea;
        largestFaceEncoding := Some(encode(face));
        largestIndex := i;
      }
    }
    if largestFaceEncoding.None? {
      return None;
    }
    biometricIdJson := Some(dumps(largestFaceEncoding.value));
  }

  /** What the script writes to standard output: the JSON and a newline, or
      nothing at all when the result is falsy (None, or an empty string). */
  function ScriptOutput(biometricIdJson: Option<string>): (out: string)
    ensures biometricIdJson.None? ==> out == ""
    ensures biometricIdJson.Some? && biometricIdJson.value != "" ==> out == biometricIdJson.value + "\n"
  {
    match biometricIdJson
    case None => ""
    case Some(json) => if json != "" then json + "\n" else ""
  }
}
