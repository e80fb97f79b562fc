/** An intersection's identifier, metadata and volume readings. Volumes only
    grow by appending; timestamps grow only when a reading carries one. */
module Intersections {
  import opened Basics

  /** The facts the readable summary reports. */
  datatype Summary = Summary(intersectionId: string, location: string, averageVolume: real, totalReadings: nat)

  class IntersectionData {
    var intersectionId: string
    var metadata: map<string, string>
    var volumes: seq<real>
    var timestamps: seq<string>

    /** Missing metadata and volumes default to empty; timestamps start
        empty whatever volumes are given. */
    constructor (intersectionId: string, metadata: Option<map<string, string>>, volumes: Option<seq<real>>)
      ensures this.intersectionId == intersectionId
      ensures this.metadata == (if metadata.Some? then metadata.value else map[])
      ensures this.volumes == (if volumes.Some? then volumes.value else [])
      ensures timestamps == []
    {
      this.intersectionId := intersectionId;
      this.metadata := if metadata.Some? then metadata.value else map[];
      this.volumes := if volumes.Some? then volumes.value else [];
      this.timestamps := [];
    }

    /** Appends a reading; its timestamp is kept only when one is given and
        it is not empty. The total grows by exactly the new volume. */
    method AddVolume(volume: real, timestamp: Option<string>)
      modifies this`volumes, this`timestamps
      ensures volumes == old(volumes) + [volume]
      ensures timestamps == if Truthy(timestamp) then old(timestamps) + [timestamp.value] else old(timestamps)
      ensures TotalVolume() == old(TotalVolume()) + volume
    {
      SumAppend(volumes, volume);
      volumes := volumes + [volume];
      if Truthy(timestamp) {
        timestamps := timestamps + [timestamp.value];
      }
    }

    /** Sum of all readings; never negative when no reading is. */
    function TotalVolume(): (total: real)
      reads this
      ensures AllNonNegative(volumes) ==> total >= 0.0
    {
      assert AllNonNegative(volumes) ==> Sum(volumes) >= 0.0 by {
        if AllNonNegative(volumes) {
          SumNonNegative(volumes);
        }
      }
      Sum(volumes)
    }

    /** Mean of the readings, 0 when there are none; times the number of
        readings it gives back the total. */
    function AverageVolume(): (avg: real)
      reads this
      ensures |volumes| == 0 ==> avg == 0.0
      ensures |volumes| > 0 ==> avg * |volumes| as real == TotalVolume()
      ensures AllNonNegative(volumes) ==> avg >= 0.0
    {
      if |volumes| == 0 then 0.0
      else
        assert AllNonNegative(volumes) ==> Mean(volumes) >= 0.0 by {
          if AllNonNegative(volumes) {
            MeanNonNegative(volumes);
          }
        }
        Sum(volumes) / |volumes| as real
    }

    /** Location from the metadata, 'Unknown' when absent; the number of
        readings is the number of volumes. */
    function GetSummary(): (s: Summary)
      reads this
      ensures s.location == if "location" in metadata then metadata["location"] else "Unknown"
      ensures s.totalReadings == |volumes|
      ensures s.averageVolume == AverageVolume() && s.intersectionId == intersectionId
    {
      Summary(intersectionId,
              if "location" in metadata then metadata["location"] else "Unknown",
              AverageVolume(), |volumes|)
    }
  }

  /** Readings added one by one accumulate: the total is the sum of the
      initial volumes and the added ones, and the timestamps record only the
      truthy ones. */
  method ExampleReadings() returns (data: IntersectionData)
    ensures data.volumes == [100.0, 150.0, 120.0]
    ensures data.TotalVolume() == 370.0
    ensures data.timestamps == ["08:00"]
    ensures data.GetSummary() == Summary("INT001", "Main St", 370.0 / 3.0, 3)
  {
    data := new IntersectionData("INT001", Some(map["location" := "Main St"]), Some([100.0]));
    data.AddVolume(150.0, Some("08:00"));
    data.AddVolume(120.0, Some(""));
    assert data.volumes[..2] == [100.0, 150.0];
    assert data.volumes[..1] == [100.0];
  }
}
