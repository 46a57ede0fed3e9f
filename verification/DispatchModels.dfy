/** The dispatch records shared by the daily planner and the replan store. Instants are whole UTC seconds. */
module DispatchModels {
  import opened Prelude

  datatype CalendarStatus = Confirmed | InProgress | Completed | Cancelled

  datatype AssignmentRecord = Assignment(
    id: string, jobId: string, workflowId: string, taskId: string, workerId: string, skills: set<string>,
    vehicleId: Option<string>, start: int, end: int, hardDeadline: Option<int>, status: CalendarStatus, revision: nat)
  {
    function Duration(): int {
      end - start
    }
  }

  /** Calendar assignments have positive duration. */
  type Assignment = a: AssignmentRecord | a.start < a.end
    witness AssignmentRecord.Assignment("", "", "", "", "", {}, None, 0, 1, None, Confirmed, 0)

  datatype Placement = Placement(
    assignmentId: string, jobId: string, taskId: string, workerId: string, vehicleId: Option<string>, start: int,
    end: int)

  /** An assignment's own identity, worker, vehicle and duration, starting at `start`. */
  function PlacedAt(a: Assignment, start: int): Placement {
    Placement(a.id, a.jobId, a.taskId, a.workerId, a.vehicleId, start, start + a.Duration())
  }

  datatype ProposalStatus = PendingOwnerApproval | Approved | Rejected | Stale | Applied

  datatype MaterialReference = MaterialReference(jobId: string, taskId: string, revision: nat)

  /** A replan proposal. The formatted material references are kept as a set. */
  datatype Proposal = Proposal(
    id: string, fingerprint: string, initiatingWorkflow: string, status: ProposalStatus,
    affectedJobs: seq<string>, affectedWorkflows: seq<string>, affectedAssignments: seq<string>,
    beforeSchedule: seq<Placement>, afterSchedule: seq<Placement>,
    materialReferences: set<MaterialReference>, routeReferences: seq<string>,
    expectedWorkflowRevisions: seq<(string, nat)>, expectedCalendarRevisions: seq<(string, nat)>,
    idleBefore: int, idleAfter: int, travelBefore: int, travelAfter: int, conditional: bool)
}
