// Records that pass between the stages of the backend (backend/include/common.h).
module Common {
  import opened Wrappers

  datatype Point3D = Point3D(x: real, y: real, z: real, depth: real, width: real,
                             normal: Option<(real, real, real)>, curvature: Option<real>)

  datatype CrackInfo = CrackInfo(id: int, porcelainId: int, crackCode: string, detectedAt: int,
                                 maxDepth: real, maxWidth: real, totalLength: real, points: seq<Point3D>)

  datatype LaserData = LaserData(sensorId: int, porcelainId: int, measurementTime: int, resolution: real,
                                 crackDetected: bool, crackCount: int, cracks: seq<CrackInfo>)

  datatype LaserMessage = LaserMessage(frameId: int, data: LaserData)

  datatype Detection = Detection(laser: LaserData, porcelainId: int, cracks: seq<CrackInfo>,
                                 crackPoints: seq<seq<Point3D>>)

  // What the fatigue model and the particle simulation compute for one crack.
  datatype Forecast = Forecast(depth: real, width: real, length: real, confidence: real, riskLevel: string)
  datatype Repair = Repair(particleCount: int, fillingRate: real, bondingStrength: real, smoothness: real,
                           durability: real)

  datatype PredictionMessage = PredictionMessage(crack: CrackInfo, porcelainId: int, crackId: int, forecast: Forecast)
  datatype RepairMessage = RepairMessage(crack: CrackInfo, porcelainId: int, crackId: int, materialId: int,
                                         repair: Repair)
}
