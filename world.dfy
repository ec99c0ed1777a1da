/** The state both handlers change in place: the metadata store behind
    `getVideo`/`updateVideo`, the files under the assets root, the object-storage
    bucket, and the log of `updateVideo` calls. Each primitive effect the handlers
    perform is one method here. */
module Backend {
  import opened Common

  class World {
    var videos: map<string, Video>
    var assets: set<string>
    var objects: map<string, string>
    var updates: seq<Video>

    /** Every record sits under its own id, as the database keys rows by id. */
    ghost predicate Valid()
      reads this
    {
      Keyed(videos)
    }

    /** The whole state as a value. */
    function State(): (s: Store)
      reads this
      ensures s.videos == videos && s.assets == assets && s.objects == objects && s.updates == updates
    {
      Store(videos, assets, objects, updates)
    }

    constructor (initial: map<string, Video>)
      requires Keyed(initial)
      ensures Valid()
      ensures State() == Store(initial, {}, map[], [])
    {
      videos, assets, objects, updates := initial, {}, map[], [];
    }

    /** `getVideo(db, id)`: the record stored under `id`, if any. */
    method GetVideo(id: string) returns (r: Option<Video>)
      requires Valid()
      ensures r.Some? <==> id in videos
      ensures r.Some? ==> r.value == videos[id] && r.value.id == id
    {
      r := if id in videos then Some(videos[id]) else None;
    }

    /** `Bun.write(path.join(assetsRoot, name), bytes)`: the file exists afterwards. */
    method WriteAsset(name: string)
      modifies this`assets
      ensures assets == old(assets) + {name}
    {
      assets := assets + {name};
    }

    /** `Bun.file(path.join(assetsRoot, name)).delete()`: the file is gone afterwards. */
    method DeleteAsset(name: string)
      modifies this`assets
      ensures assets == old(assets) - {name}
    {
      assets := assets - {name};
    }

    /** `s3Client.file(key).write(..., { type })`: the key holds an object of that type,
        replacing any earlier one. */
    method PutObject(key: string, contentType: string)
      modifies this`objects
      ensures objects == old(objects)[key := contentType]
    {
      objects := objects[key := contentType];
    }

    /** `updateVideo(db, record)`: the stored row with the record's id is replaced, and
        the call is logged. Both handlers pass only records they fetched. */
    method UpdateVideo(record: Video)
      requires Valid() && record.id in videos
      modifies this`videos, this`updates
      ensures Valid()
      ensures videos == old(videos)[record.id := record]
      ensures updates == old(updates) + [record]
    {
      videos := videos[record.id := record];
      updates := updates + [record];
    }
  }
}
