/**
 * The parts of the file system the core touches: the two staging
 * directories (`temp-images`, `temp-embeddings`) and the gallery file.
 * File names are modelled as naturals drawn from a counter, which stands
 * for the unique names `os.CreateTemp` picks.
 */
module Files {
  import opened Wrappers
  import opened Records

  datatype Dir = TempImages | TempEmbeddings

  class FileSystem {
    var tempImages: set<nat>
    var tempEmbeddings: set<nat>
    var gallery: Gallery
    var nextName: nat

    /** Every staged name was handed out before, so a new name is fresh. */
    ghost predicate Valid()
      reads this
    {
      && (forall n | n in tempImages :: n < nextName)
      && (forall n | n in tempEmbeddings :: n < nextName)
    }

    function Names(dir: Dir): set<nat>
      reads this
    {
      match dir
      case TempImages => tempImages
      case TempEmbeddings => tempEmbeddings
    }

    constructor (gallery: Gallery)
      ensures Valid()
      ensures tempImages == {} && tempEmbeddings == {} && this.gallery == gallery
    {
      tempImages, tempEmbeddings := {}, {};
      this.gallery := gallery;
      nextName := 0;
    }

    /** `os.CreateTemp(dir, pattern)`: fails (missing or unwritable
        directory) or creates a file under a name not in use. */
    method CreateTemp(dir: Dir, fails: bool) returns (name: Option<nat>)
      requires Valid()
      modifies this
      ensures Valid()
      ensures name.None? <==> fails
      ensures name.Some? ==> name.value !in old(Names(dir))
      ensures name.Some? ==> old(nextName) <= name.value < nextName
      ensures Names(dir) == if name.Some? then old(Names(dir)) + {name.value} else old(Names(dir))
      ensures dir == TempImages ==> tempEmbeddings == old(tempEmbeddings)
      ensures dir == TempEmbeddings ==> tempImages == old(tempImages)
      ensures gallery == old(gallery)
      ensures name.None? ==> nextName == old(nextName)
    {
      if fails {
        return None;
      }
      name := Some(nextName);
      if dir == TempImages {
        tempImages := tempImages + {nextName};
      } else {
        tempEmbeddings := tempEmbeddings + {nextName};
      }
      nextName := nextName + 1;
    }

    /** `os.Remove(name)`, as run by the `defer` after a successful create. */
    method Remove(dir: Dir, name: nat)
      requires Valid()
      modifies this
      ensures Valid()
      ensures Names(dir) == old(Names(dir)) - {name}
      ensures dir == TempImages ==> tempEmbeddings == old(tempEmbeddings)
      ensures dir == TempEmbeddings ==> tempImages == old(tempImages)
      ensures gallery == old(gallery) && nextName == old(nextName)
    {
      if dir == TempImages {
        tempImages := tempImages - {name};
      } else {
        tempEmbeddings := tempEmbeddings - {name};
      }
    }
  }
}
