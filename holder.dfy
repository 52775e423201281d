/** WebRtcHolder: the process-wide map from a track key to a video track,
    through which the service hands tracks to the activity that renders them.
    Entries are inserted or overwritten, never removed. */
module Holder {
  import opened Media

  /** Map.get: the track stored under `key`, or null. */
  function Lookup(m: map<string, VideoTrack>, key: string): (r: Option<VideoTrack>)
    ensures r.Some? <==> key in m
    ensures r.Some? ==> m[key] == r.value
  {
    if key in m then Some(m[key]) else None
  }

  /** One putVideoTrack(key, track) call. */
  datatype Put = Put(key: string, track: VideoTrack)

  /** The map after the calls `puts`, in order. */
  function PutAll(m: map<string, VideoTrack>, puts: seq<Put>): map<string, VideoTrack>
    decreases |puts|
  {
    if |puts| == 0 then m
    else PutAll(m, puts[..|puts| - 1])[puts[|puts| - 1].key := puts[|puts| - 1].track]
  }

  /** The track of the last call in `puts` that used `key`, if any:
      a reference definition that does not mention the map. */
  function LastPut(puts: seq<Put>, key: string): Option<VideoTrack>
    decreases |puts|
  {
    if |puts| == 0 then None
    else if puts[|puts| - 1].key == key then Some(puts[|puts| - 1].track)
    else LastPut(puts[..|puts| - 1], key)
  }

  /** getVideoTrack after any sequence of puts returns the track of the
      latest put on that key (later puts overwrite earlier ones; puts on other
      keys leave it alone), or what the map held before when there was none. */
  lemma {:induction false} GetAfterPuts(m: map<string, VideoTrack>, puts: seq<Put>, key: string)
    ensures Lookup(PutAll(m, puts), key)
         == if LastPut(puts, key).Some? then LastPut(puts, key) else Lookup(m, key)
    decreases |puts|
  {
    if |puts| > 0 {
      GetAfterPuts(m, puts[..|puts| - 1], key);
    }
  }

  /** The keys used by `puts`. */
  function PutKeys(puts: seq<Put>): set<string> {
    set i | 0 <= i < |puts| :: puts[i].key
  }

  /** There is no removal: the set of present keys only grows, by exactly
      the keys put. */
  lemma {:induction false} KeysOnlyGrow(m: map<string, VideoTrack>, puts: seq<Put>)
    ensures PutAll(m, puts).Keys == m.Keys + PutKeys(puts)
    decreases |puts|
  {
    if |puts| > 0 {
      var init := puts[..|puts| - 1];
      KeysOnlyGrow(m, init);
      var last := puts[|puts| - 1];
      assert PutKeys(puts) == PutKeys(init) + {last.key} by {
        forall k | k in PutKeys(puts)
          ensures k in PutKeys(init) + {last.key}
        {
          var i :| 0 <= i < |puts| && puts[i].key == k;
          if i < |init| {
            assert init[i] == puts[i];
          }
        }
      }
    }
  }

  /** The holder.  Java's static map becomes one shared object. */
  class WebRtcHolder {
    var videoTrackMap: map<string, VideoTrack>

    constructor ()
      ensures videoTrackMap == map[]
    {
      videoTrackMap := map[];
    }

    /** putVideoTrack.  ConcurrentHashMap refuses null keys and values; here
        `key` and `track` are never null by their types. */
    method PutVideoTrack(key: string, track: VideoTrack)
      modifies this
      ensures videoTrackMap == PutAll(old(videoTrackMap), [Put(key, track)])
      ensures Lookup(videoTrackMap, key) == Some(track)
      ensures forall k | k != key :: Lookup(videoTrackMap, k) == Lookup(old(videoTrackMap), k)
    {
      videoTrackMap := videoTrackMap[key := track];
    }

    /** getVideoTrack: reads the map and changes nothing. */
    method GetVideoTrack(key: string) returns (r: Option<VideoTrack>)
      ensures r.Some? <==> key in videoTrackMap
      ensures r.Some? ==> r.value == videoTrackMap[key]
    {
      if key in videoTrackMap {
        r := Some(videoTrackMap[key]);
      } else {
        r := None;
      }
    }
  }
}
