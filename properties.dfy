/**
 * `MemorySystemProperties`: the `memory.*` configuration with its defaults,
 * and the storage paths derived from it.
 */
module Properties {
  import opened Text

  /** `MemorySystemProperties.ThreadPool`. */
  datatype ThreadPool = ThreadPool(coreSize: int, maxSize: int, keepAliveSeconds: int, queueCapacity: int)

  /** `MemorySystemProperties`, with `api.prefix` as `apiPrefix`. */
  datatype MemorySystemProperties = MemorySystemProperties(
    conversationSearchTopK: int,
    updateSearchTopK: int,
    shortTermMemorySize: int,
    dbPath: string,
    collectionsDir: string,
    collectionName: string,
    apiPrefix: string,
    threadPool: ThreadPool)

  /** The values a freshly bound configuration holds when nothing overrides them. */
  function Defaults(): (p: MemorySystemProperties)
    ensures p.conversationSearchTopK == 3 && p.updateSearchTopK == 5 && p.shortTermMemorySize == 10
    ensures p.dbPath == "./qdrant" && p.collectionsDir == "collections" && p.collectionName == "memories"
    ensures p.apiPrefix == "/api/conversation"
    ensures p.threadPool == ThreadPool(5, 10, 60, 100)
    ensures p.threadPool.coreSize <= p.threadPool.maxSize
  {
    MemorySystemProperties(3, 5, 10, "./qdrant", "collections", "memories", "/api/conversation",
                           ThreadPool(5, 10, 60, 100))
  }

  /** `getCollectionsPath`: the collections directory under the database path. */
  function CollectionsPath(p: MemorySystemProperties): (r: string)
    ensures StartsWith(r, p.dbPath + "/") && EndsWith(r, p.collectionsDir)
    ensures |r| == |p.dbPath| + 1 + |p.collectionsDir|
  {
    ConcatAffixes(p.dbPath + "/", p.collectionsDir);
    p.dbPath + "/" + p.collectionsDir
  }

  /** `getMemoriesFilePath`: the collection's JSON file in the collections directory. */
  function MemoriesFilePath(p: MemorySystemProperties): (r: string)
    ensures StartsWith(r, CollectionsPath(p) + "/") && EndsWith(r, p.collectionName + ".json")
  {
    var dir := CollectionsPath(p) + "/";
    ConcatAffixes(dir, p.collectionName + ".json");
    assert dir + (p.collectionName + ".json") == dir + p.collectionName + ".json";
    dir + p.collectionName + ".json"
  }

  /**
   * When the collection name holds no '/', the file's last separator is the
   * one after the collections path: the file sits directly in that directory
   * and is named after the collection.
   */
  lemma MemoriesFileInCollections(p: MemorySystemProperties)
    requires forall i :: 0 <= i < |p.collectionName| ==> p.collectionName[i] != '/'
    ensures LastIndexOf(MemoriesFilePath(p), '/') == |CollectionsPath(p)|
    ensures MemoriesFilePath(p)[|CollectionsPath(p)| + 1..] == p.collectionName + ".json"
  {
    var r := MemoriesFilePath(p);
    var k := |CollectionsPath(p)|;
    var name := p.collectionName + ".json";
    assert r == CollectionsPath(p) + "/" + name;
    assert r[k] == '/';
    assert forall j :: k < j < |r| ==> r[j] == name[j - k - 1];
    assert forall j :: 0 <= j < |name| ==> name[j] != '/';
  }

  /** With the defaults, the memories file is "./qdrant/collections/memories.json". */
  lemma DefaultMemoriesFile()
    ensures CollectionsPath(Defaults()) == "./qdrant/collections"
    ensures MemoriesFilePath(Defaults()) == "./qdrant/collections/memories.json"
  {
  }
}
