/** The block store as it runs, over a directory modelled as a map, with the Bloom filter object
    it keeps. What the system calls answer is passed in. */
module FileBlockStore {
  import opened Common
  import opened Octets
  import opened Fnv
  import opened Bloom
  import BlockStore
  import opened BloomStore

  class FileBlockStore {
    const blocksize: nat
    var files: map<string, Bytes>
    const bloomfilter: BloomFilter
    var blockset: set<string>
    var freeBlocks: nat
    var usedBlocks: nat

    ghost predicate Valid()
      reads this, bloomfilter, bloomfilter.hash
    {
      bloomfilter.Valid() && BlockStore.Indexed(Value())
    }

    ghost function Value(): BlockStore.Store
      reads this, bloomfilter, bloomfilter.hash
      requires bloomfilter.Valid()
    {
      BlockStore.Store(blocksize, files, bloomfilter.Contents(), blockset, freeBlocks, usedBlocks)
    }

    /** Opens a store on an existing directory. */
    constructor (blocksize: nat, files: map<string, Bytes>, disk: BlockStore.Disk)
      ensures Valid() && fresh(bloomfilter) && fresh(bloomfilter.hash)
      ensures Value().blocksize == blocksize && Value().files == files
      ensures Value() == BlockStore.Regenerate(Value(), disk)
    {
      this.blocksize, this.files := blocksize, files;
      bloomfilter := new BloomFilter();
      blockset, freeBlocks, usedBlocks := {}, 0, 0;
      new;
      RegenerateBloomFilterAndBlockSet(disk);
    }

    method PutBlock(key: string, data: Bytes, canOpen: bool, written: int) returns (ok: bool)
      requires Valid() && BlockStore.WriteResult(data, written)
      modifies this, bloomfilter.hash
      ensures Valid() && (Value(), ok) == BlockStore.Put(old(Value()), key, data, canOpen, written)
    {
      if freeBlocks <= 0 {
        return false;
      }
      if !canOpen || BlockStore.IsDirectory(key) {
        return false;
      }
      files := files[key := []];
      if |data| > blocksize {
        return false;
      }
      if written > 0 {
        files := files[key := data[..written]];
      }
      assert files == old(files)[key := BlockStore.Content(old(Value()), data, written)];
      if written != blocksize {
        return false;
      }
      freeBlocks := freeBlocks - 1;
      usedBlocks := (usedBlocks + 1) % TWO32;
      Insert(key);
      return true;
    }

    ghost predicate InStep()
      reads this, bloomfilter, bloomfilter.hash
    {
      bloomfilter.Valid() && bloomfilter.Contents() == BlockStore.IndexOf(blockset)
    }

    /** Enters a name in the filter and in the block set. */
    method Insert(key: string)
      requires InStep()
      modifies this`blockset, bloomfilter.hash
      ensures InStep() && blockset == old(blockset) + {key}
      ensures bloomfilter.Contents() == Bloom.Set(old(bloomfilter.Contents()), key)
    {
      BlockStore.IndexOfMore(blockset, key);
      bloomfilter.Set(key);
      blockset := blockset + {key};
    }

    method GetBlock(key: string, readable: bool) returns (r: Option<Bytes>)
      requires Valid()
      ensures r == BlockStore.Get(Value(), key, readable)
    {
      if key !in files || !readable {
        return None;
      }
      var n := if |files[key]| < blocksize then |files[key]| else blocksize;
      if n <= 0 {
        return None;
      }
      return Some(files[key][..n]);
    }

    method RemoveBlock(key: string, unlinked: bool, disk: BlockStore.Disk) returns (ok: bool)
      requires Valid()
      modifies this, bloomfilter, bloomfilter.hash
      ensures Valid() && (Value(), ok) == BlockStore.Remove(old(Value()), key, unlinked, disk)
    {
      if key in files && unlinked {
        files := files - {key};
        RegenerateBloomFilterAndBlockSet(disk);
        return true;
      }
      return false;
    }

    /** Reads through the directory in whatever order it is listed. */
    method RegenerateBloomFilterAndBlockSet(disk: BlockStore.Disk)
      requires bloomfilter.Valid()
      modifies this, bloomfilter
      ensures Valid() && fresh(bloomfilter.hash) && Value() == BlockStore.Regenerate(old(Value()), disk)
      ensures disk.free.Some? && disk.free.value < TWO32 ==> freeBlocks == disk.free.value
    {
      bloomfilter.Reset(DEFAULT_SIZE, 0);
      blockset, freeBlocks, usedBlocks := {}, 0, 0;
      BlockStore.EmptyRepresents();
      SameKeysSameFilter(bloomfilter.Contents(), BlockStore.IndexOf({}), {});
      if disk.free.Some? {
        freeBlocks := disk.free.value % TWO32;
      }
      if disk.listed {
        ListDirectory();
      }
    }

    method CountEntry(name: string)
      requires InStep() && name !in blockset && usedBlocks == |blockset| % TWO32
      modifies this`blockset, this`usedBlocks, bloomfilter.hash
      ensures InStep() && blockset == old(blockset) + {name} && usedBlocks == |blockset| % TWO32
    {
      CountOneMore(blockset, name);
      Insert(name);
      usedBlocks := (usedBlocks + 1) % TWO32;
    }

    method ListDirectory()
      requires InStep() && blockset == {} && usedBlocks == 0
      modifies this`blockset, this`usedBlocks, bloomfilter.hash
      ensures InStep() && blockset == BlockStore.Visible(files) && usedBlocks == |blockset| % TWO32
    {
      var rest := files.Keys;
      while rest != {}
        invariant rest <= files.Keys
        invariant InStep()
        invariant blockset == BlockStore.Visible(files - rest) && usedBlocks == |blockset| % TWO32
        decreases |rest|
      {
        var name :| name in rest;
        ListedMore(files, rest, name);
        if !BlockStore.Hidden(name) {
          CountEntry(name);
        }
        rest := rest - {name};
      }
      assert files - rest == files;
    }
  }

  lemma CountOneMore(names: set<string>, name: string)
    ensures name !in names ==> |names + {name}| % TWO32 == (|names| % TWO32 + 1) % TWO32
  {
  }

  lemma ListedMore(files: map<string, Bytes>, rest: set<string>, name: string)
    requires name in rest && rest <= files.Keys
    ensures BlockStore.Visible(files - (rest - {name})) ==
      BlockStore.Visible(files - rest) + (if BlockStore.Hidden(name) then {} else {name})
    ensures name !in BlockStore.Visible(files - rest)
  {
  }
}
