/** What a record says about a student (attendance/model.go). */
module AttendanceStatus {
  datatype Status = Present | Late | Absent | Leave
}
